/** The analytics page (frontend/src/pages/Analytics.jsx): performance rows,
    risk metrics, the correlation table, the diversification figures and the
    top-5 lists, all computed from a snapshot of the holdings. */
module Analytics {
  import opened Basics
  import Holdings

  // ---------------------------------------------------------------------------
  // Performance rows

  /** What the page reads of a holding. `value` and `change24h` may be missing
      (`undefined`); the page reads them through `|| 0`. */
  datatype HoldingView = HoldingView(symbol: string, value: Option<real>, change24h: Option<real>)

  /** A holding of the store as the page sees it: both numbers present. */
  function View(h: Holdings.Holding): HoldingView
  {
    HoldingView(h.symbol, Some(h.value), Some(h.change24h))
  }

  function Views(hs: seq<Holdings.Holding>): (r: seq<HoldingView>)
    ensures |r| == |hs| && forall i :: 0 <= i < |hs| ==> r[i] == View(hs[i])
  {
    seq(|hs|, i requires 0 <= i < |hs| => View(hs[i]))
  }

  /** `x || 0` on a number that may be `undefined`. */
  function OrZero(x: Option<real>): real
  {
    if x.Some? then x.value else 0.0
  }

  datatype PerformanceRow = PerformanceRow(
    symbol: string,
    value: real,
    change24h: real,
    allocation: real,
    performance: real)

  function ValuesOf(hs: seq<HoldingView>): (r: seq<real>)
    ensures |r| == |hs| && forall i :: 0 <= i < |hs| ==> r[i] == OrZero(hs[i].value)
  {
    seq(|hs|, i requires 0 <= i < |hs| => OrZero(hs[i].value))
  }

  /** `holdings.reduce((sum, h) => sum + (h.value || 0), 0)`. */
  function ViewTotal(hs: seq<HoldingView>): real
  {
    Sum(ValuesOf(hs))
  }

  function Row(h: HoldingView, total: real): PerformanceRow
  {
    PerformanceRow(h.symbol, OrZero(h.value), OrZero(h.change24h),
                   Holdings.Share(OrZero(h.value), total), OrZero(h.change24h))
  }

  /** `performanceData`: one row per holding, in holding order. */
  function PerformanceRows(hs: seq<HoldingView>): (r: seq<PerformanceRow>)
    ensures |r| == |hs|
  {
    var total := ViewTotal(hs);
    seq(|hs|, i requires 0 <= i < |hs| => Row(hs[i], total))
  }

  /** Each row copies the symbol, defaults a missing value or change to 0,
      reports the change as the performance, and takes the allocation as a
      percentage of the total value (0 when the total is not positive). */
  lemma PerformanceRowAt(hs: seq<HoldingView>, i: int)
    requires 0 <= i < |hs|
    ensures PerformanceRows(hs)[i].symbol == hs[i].symbol
    ensures PerformanceRows(hs)[i].value == (if hs[i].value.Some? then hs[i].value.value else 0.0)
    ensures PerformanceRows(hs)[i].change24h == (if hs[i].change24h.Some? then hs[i].change24h.value else 0.0)
    ensures PerformanceRows(hs)[i].performance == PerformanceRows(hs)[i].change24h
    ensures ViewTotal(hs) > 0.0 ==>
      PerformanceRows(hs)[i].allocation == PerformanceRows(hs)[i].value / ViewTotal(hs) * 100.0
    ensures ViewTotal(hs) <= 0.0 ==> PerformanceRows(hs)[i].allocation == 0.0
  {
  }

  function AllocationsOf(rows: seq<PerformanceRow>): (r: seq<real>)
    ensures |r| == |rows| && forall i :: 0 <= i < |rows| ==> r[i] == rows[i].allocation
  {
    seq(|rows|, i requires 0 <= i < |rows| => rows[i].allocation)
  }

  /** The rows' allocations add up to 100 whenever the total value is positive. */
  lemma RowAllocationsSumTo100(hs: seq<HoldingView>)
    requires ViewTotal(hs) > 0.0
    ensures Sum(AllocationsOf(PerformanceRows(hs))) == 100.0
  {
    var t := ViewTotal(hs);
    SumScaled(ValuesOf(hs), AllocationsOf(PerformanceRows(hs)), t, 100.0);
    assert 1.0 / t * t == 1.0;
    assert t / t == 1.0;
  }

  lemma {:induction false} ViewTotalOfStore(hs: seq<Holdings.Holding>)
    ensures ViewTotal(Views(hs)) == Holdings.TotalValue(hs)
  {
    if hs != [] {
      ViewTotalOfStore(hs[1..]);
      assert ValuesOf(Views(hs))[1..] == ValuesOf(Views(hs[1..]));
    }
  }

  /** On the store's holdings the page recomputes exactly the allocations the
      store's allocation effect holds. */
  lemma RowsAgreeWithStore(hs: seq<Holdings.Holding>, i: int)
    requires 0 <= i < |hs|
    ensures PerformanceRows(Views(hs))[i].allocation == Holdings.Reallocate(hs)[i].allocation
    ensures PerformanceRows(Views(hs))[i].performance == hs[i].change24h
  {
    ViewTotalOfStore(hs);
  }

  // ---------------------------------------------------------------------------
  // Risk metrics

  function Returns(rows: seq<PerformanceRow>): (r: seq<real>)
    ensures |r| == |rows| && forall i :: 0 <= i < |rows| ==> r[i] == rows[i].performance
  {
    seq(|rows|, i requires 0 <= i < |rows| => rows[i].performance)
  }

  /** `returns.reduce(...) / returns.length`; the page only calls it with at
      least one holding. */
  function Mean(xs: seq<real>): real
    requires |xs| > 0
  {
    Sum(xs) / |xs| as real
  }

  function SquaredDeviations(xs: seq<real>, m: real): (r: seq<real>)
    ensures |r| == |xs| && forall i :: 0 <= i < |xs| ==> r[i] == (xs[i] - m) * (xs[i] - m)
  {
    seq(|xs|, i requires 0 <= i < |xs| => (xs[i] - m) * (xs[i] - m))
  }

  /** The mean squared deviation from the mean. */
  function Variance(xs: seq<real>): real
    requires |xs| > 0
  {
    Sum(SquaredDeviations(xs, Mean(xs))) / |xs| as real
  }

  /** The mean lies between the smallest and the largest return. */
  lemma MeanBetween(xs: seq<real>, lo: real, hi: real)
    requires |xs| > 0
    requires forall k :: 0 <= k < |xs| ==> lo <= xs[k] <= hi
    ensures lo <= Mean(xs) <= hi
  {
    SumBetween(xs, lo, hi);
    var n := |xs| as real;
    assert n * lo / n == lo && n * hi / n == hi;
  }

  /** The mean of equal returns is that return. */
  lemma MeanOfConstant(xs: seq<real>, c: real)
    requires |xs| > 0
    requires forall k :: 0 <= k < |xs| ==> xs[k] == c
    ensures Mean(xs) == c
  {
    SumConstant(xs, c);
  }

  function Deviations(xs: seq<real>, m: real): (r: seq<real>)
    ensures |r| == |xs| && forall i :: 0 <= i < |xs| ==> r[i] == xs[i] - m
  {
    seq(|xs|, i requires 0 <= i < |xs| => xs[i] - m)
  }

  /** The variance is never negative, and it is zero exactly when all returns
      are equal. */
  lemma VarianceSpec(xs: seq<real>)
    requires |xs| > 0
    ensures Variance(xs) >= 0.0
    ensures Variance(xs) == 0.0 <==> forall i, j :: 0 <= i < |xs| && 0 <= j < |xs| ==> xs[i] == xs[j]
  {
    var m := Mean(xs);
    var ds := Deviations(xs, m);
    var sq := SquaredDeviations(xs, m);
    SumSquaresZero(ds, sq);
    QuotientSign(Sum(sq), |xs| as real);
    if forall i, j :: 0 <= i < |xs| && 0 <= j < |xs| ==> xs[i] == xs[j] {
      MeanOfConstant(xs, xs[0]);
      assert forall k :: 0 <= k < |ds| ==> ds[k] == 0.0;
    }
  }

  lemma QuotientSign(a: real, n: real)
    requires a >= 0.0 && n > 0.0
    ensures a / n >= 0.0 && (a / n == 0.0 <==> a == 0.0)
  {
  }

  /** A JavaScript number where the drawdown formula divides by a zero peak. */
  datatype JsNumber = Finite(r: real) | PositiveInfinity | NegativeInfinity | NaN

  /** JavaScript's `a > b` (false whenever NaN is involved). */
  predicate GreaterThan(a: JsNumber, b: JsNumber)
  {
    match a
    case NaN => false
    case NegativeInfinity => false
    case PositiveInfinity => !b.NaN? && !b.PositiveInfinity?
    case Finite(x) => b.NegativeInfinity? || (b.Finite? && x > b.r)
  }

  /** `(peak - cumulative) / peak`. With `peak` 0 JavaScript gives NaN for
      0 / 0 and an infinity of the numerator's sign otherwise. */
  function Drawdown(peak: real, cumulative: real): JsNumber
  {
    if peak != 0.0 then Finite((peak - cumulative) / peak)
    else if cumulative == 0.0 then NaN
    else if cumulative < 0.0 then PositiveInfinity
    else NegativeInfinity
  }

  /** `cumulative` after the first `k` returns. */
  function Cumulative(xs: seq<real>, k: nat): real
    requires k <= |xs|
  {
    if k == 0 then 0.0 else Cumulative(xs, k - 1) + xs[k - 1]
  }

  /** `peak` after the first `k` returns: raised whenever `cumulative` exceeds it. */
  function Peak(xs: seq<real>, k: nat): real
    requires k <= |xs|
  {
    if k == 0 then 0.0
    else if Cumulative(xs, k) > Peak(xs, k - 1) then Cumulative(xs, k)
    else Peak(xs, k - 1)
  }

  /** `maxDrawdown` after the first `k` returns. */
  function MaxDrawdownAfter(xs: seq<real>, k: nat): JsNumber
    requires k <= |xs|
  {
    if k == 0 then Finite(0.0)
    else
      var d := Drawdown(Peak(xs, k), Cumulative(xs, k));
      if GreaterThan(d, MaxDrawdownAfter(xs, k - 1)) then d else MaxDrawdownAfter(xs, k - 1)
  }

  /** The running peak is the maximum of 0 and every cumulative sum so far, so
      it is never below the current one. */
  lemma {:induction false} PeakIsRunningMax(xs: seq<real>, k: nat)
    requires k <= |xs|
    ensures Peak(xs, k) >= 0.0
    ensures forall j :: 1 <= j <= k ==> Peak(xs, k) >= Cumulative(xs, j)
    ensures Peak(xs, k) == 0.0 || exists j: nat :: 1 <= j <= k && Peak(xs, k) == Cumulative(xs, j)
  {
    if k > 0 {
      PeakIsRunningMax(xs, k - 1);
      if Cumulative(xs, k) > Peak(xs, k - 1) {
        assert Peak(xs, k) == Cumulative(xs, k);
        assert exists j: nat :: 1 <= j <= k && Peak(xs, k) == Cumulative(xs, j);
      } else if Peak(xs, k) != 0.0 {
        var j: nat :| 1 <= j <= k - 1 && Peak(xs, k - 1) == Cumulative(xs, j);
        assert 1 <= j <= k && Peak(xs, k) == Cumulative(xs, j);
      }
    }
  }

  /** The drawdown loop: `cumulative += ret`, raise `peak`, keep the largest
      drawdown. */
  method MaxDrawdown(rets: seq<real>) returns (maxDrawdown: JsNumber)
    ensures maxDrawdown == MaxDrawdownAfter(rets, |rets|)
  {
    maxDrawdown := Finite(0.0);
    var peak := 0.0;
    var cumulative := 0.0;
    var i := 0;
    while i < |rets|
      invariant 0 <= i <= |rets|
      invariant cumulative == Cumulative(rets, i)
      invariant peak == Peak(rets, i)
      invariant maxDrawdown == MaxDrawdownAfter(rets, i)
    {
      cumulative := cumulative + rets[i];
      if cumulative > peak {
        peak := cumulative;
      }
      var drawdown := Drawdown(peak, cumulative);
      if GreaterThan(drawdown, maxDrawdown) {
        maxDrawdown := drawdown;
      }
      i := i + 1;
    }
  }

  /** When no return is negative the cumulative sum never drops below its
      peak, so the maximum drawdown stays 0. */
  lemma {:induction false} NoDrawdownWithoutLosses(xs: seq<real>, k: nat)
    requires k <= |xs|
    requires forall i :: 0 <= i < |xs| ==> xs[i] >= 0.0
    ensures Peak(xs, k) == Cumulative(xs, k)
    ensures MaxDrawdownAfter(xs, k) == Finite(0.0)
  {
    if k > 0 {
      NoDrawdownWithoutLosses(xs, k - 1);
    }
  }

  /** The maximum drawdown is never negative and never NaN or -Infinity. */
  lemma {:induction false} DrawdownNonNegative(xs: seq<real>, k: nat)
    requires k <= |xs|
    ensures MaxDrawdownAfter(xs, k).PositiveInfinity?
      || (MaxDrawdownAfter(xs, k).Finite? && MaxDrawdownAfter(xs, k).r >= 0.0)
  {
    if k > 0 {
      DrawdownNonNegative(xs, k - 1);
      PeakIsRunningMax(xs, k);
      var p, c := Peak(xs, k), Cumulative(xs, k);
      if p != 0.0 {
        assert p > 0.0 && p - c >= 0.0;
        assert (p - c) / p >= 0.0;
      }
    }
  }

  /** The maximum drawdown is +Infinity exactly when some cumulative sum is
      negative while every earlier one (and itself) is at most 0, i.e. while
      the peak is still 0. */
  lemma {:induction false} InfiniteDrawdown(xs: seq<real>, k: nat)
    requires k <= |xs|
    ensures MaxDrawdownAfter(xs, k).PositiveInfinity? <==>
      exists j :: 1 <= j <= k && Cumulative(xs, j) < 0.0 && Peak(xs, j) == 0.0
  {
    if k > 0 {
      InfiniteDrawdown(xs, k - 1);
      DrawdownNonNegative(xs, k - 1);
      PeakIsRunningMax(xs, k);
      if Cumulative(xs, k) < 0.0 && Peak(xs, k) == 0.0 {
        assert MaxDrawdownAfter(xs, k).PositiveInfinity?;
      }
    }
  }

  /** The maximum drawdown is at least the drawdown of every step so far: it
      is +Infinity when some step's is, and otherwise no smaller than any
      step's finite drawdown. */
  lemma {:induction false} MaxIsLargest(xs: seq<real>, k: nat, j: nat)
    requires 1 <= j <= k <= |xs|
    ensures Drawdown(Peak(xs, j), Cumulative(xs, j)).PositiveInfinity? ==>
      MaxDrawdownAfter(xs, k).PositiveInfinity?
    ensures Drawdown(Peak(xs, j), Cumulative(xs, j)).Finite? ==>
      MaxDrawdownAfter(xs, k).PositiveInfinity? ||
      (MaxDrawdownAfter(xs, k).Finite? &&
       MaxDrawdownAfter(xs, k).r >= Drawdown(Peak(xs, j), Cumulative(xs, j)).r)
  {
    DrawdownNonNegative(xs, k);
    DrawdownNonNegative(xs, k - 1);
    if j < k {
      MaxIsLargest(xs, k - 1, j);
    }
  }

  /** The maximum drawdown is the initial 0 or the drawdown of one of the
      steps so far. */
  lemma {:induction false} MaxIsAttained(xs: seq<real>, k: nat)
    requires k <= |xs|
    ensures MaxDrawdownAfter(xs, k) == Finite(0.0) ||
      exists j: nat :: 1 <= j <= k && MaxDrawdownAfter(xs, k) == Drawdown(Peak(xs, j), Cumulative(xs, j))
  {
    if k > 0 {
      MaxIsAttained(xs, k - 1);
      if MaxDrawdownAfter(xs, k) == Drawdown(Peak(xs, k), Cumulative(xs, k)) {
        assert exists j: nat :: 1 <= j <= k && MaxDrawdownAfter(xs, k) == Drawdown(Peak(xs, j), Cumulative(xs, j));
      } else if MaxDrawdownAfter(xs, k - 1) != Finite(0.0) {
        var j: nat :| 1 <= j <= k - 1 && MaxDrawdownAfter(xs, k - 1) == Drawdown(Peak(xs, j), Cumulative(xs, j));
        assert 1 <= j <= k && MaxDrawdownAfter(xs, k) == Drawdown(Peak(xs, j), Cumulative(xs, j));
      }
    }
  }

  /** The risk figures the model keeps: mean return, variance and the maximum
      drawdown in percent. */
  datatype RiskMetrics = RiskMetrics(meanReturn: real, variance: real, maxDrawdownPercent: JsNumber)

  /** `maxDrawdown * 100`. */
  function Percent(x: JsNumber): JsNumber
  {
    if x.Finite? then Finite(x.r * 100.0) else x
  }

  function RiskMetricsOf(rows: seq<PerformanceRow>): RiskMetrics
    requires |rows| > 0
  {
    var rs := Returns(rows);
    RiskMetrics(Mean(rs), Variance(rs), Percent(MaxDrawdownAfter(rs, |rs|)))
  }

  // ---------------------------------------------------------------------------
  // Correlations, in hundredths

  datatype Level = High | Medium | Low

  /** The predefined pair correlations of the page, in hundredths. */
  const CorrelationPatterns: map<string, int> := map[
    "BTC-ETH" := 65, "BTC-BNB" := 58, "ETH-BNB" := 72, "BTC-SOL" := 45, "ETH-SOL" := 52,
    "BTC-ADA" := 38, "ETH-ADA" := 41, "BTC-DOT" := 42, "ETH-DOT" := 48, "BTC-AVAX" := 51,
    "ETH-AVAX" := 56, "BTC-MATIC" := 44, "ETH-MATIC" := 49, "BTC-LINK" := 47, "ETH-LINK" := 53,
    "BTC-UNI" := 46, "ETH-UNI" := 51, "BTC-XRP" := 35, "ETH-XRP" := 39, "BTC-DOGE" := 28,
    "ETH-DOGE" := 32, "BTC-SHIB" := 25, "ETH-SHIB" := 29, "BTC-LTC" := 68, "ETH-LTC" := 61,
    "BTC-ATOM" := 43, "ETH-ATOM" := 47, "BTC-NEAR" := 39, "ETH-NEAR" := 44, "BTC-ALGO" := 36,
    "ETH-ALGO" := 41, "BTC-VET" := 33, "ETH-VET" := 37, "BTC-MANA" := 31, "ETH-MANA" := 35,
    "BTC-SAND" := 29, "ETH-SAND" := 33
  ]

  /** Every predefined correlation lies between 0.25 and 0.72; in particular
      none is 0, so `patterns[pair1] || patterns[pair2]` only falls through
      to `pair2` when `pair1` is missing. */
  lemma PatternsInRange()
    ensures forall k :: k in CorrelationPatterns ==> 25 <= CorrelationPatterns[k] <= 72
  {
  }

  function PairLabel(a: string, b: string): string
  {
    a + "-" + b
  }

  /** `patterns[a-b] || patterns[b-a]`: the second label is consulted when
      the first is missing or maps to 0 (a falsy number). */
  function PatternLookup(patterns: map<string, int>, a: string, b: string): (r: Option<int>)
    ensures r.Some? <==>
      (PairLabel(a, b) in patterns && patterns[PairLabel(a, b)] != 0) || PairLabel(b, a) in patterns
    ensures PairLabel(a, b) in patterns && patterns[PairLabel(a, b)] != 0 ==>
      r == Some(patterns[PairLabel(a, b)])
    ensures !(PairLabel(a, b) in patterns && patterns[PairLabel(a, b)] != 0) && PairLabel(b, a) in patterns ==>
      r == Some(patterns[PairLabel(b, a)])
    ensures r.Some? ==> r.value in patterns.Values
  {
    if PairLabel(a, b) in patterns && patterns[PairLabel(a, b)] != 0 then Some(patterns[PairLabel(a, b)])
    else if PairLabel(b, a) in patterns then Some(patterns[PairLabel(b, a)])
    else None
  }

  function Clamp(x: int, lo: int, hi: int): int
  {
    if x < lo then lo else if x > hi then hi else x
  }

  /** `max(0.1, min(0.8, 0.4 + |i - j|·0.02 + (equal lengths ? 0.1 : 0)))`,
      in hundredths. */
  function FallbackCorrelation(i: int, j: int, a: string, b: string): (r: int)
    ensures 10 <= r <= 80
    ensures 40 + 2 * Abs(i - j) + (if |a| == |b| then 10 else 0) <= 80 ==>
      r == 40 + 2 * Abs(i - j) + (if |a| == |b| then 10 else 0)
  {
    Clamp(40 + 2 * Abs(i - j) + (if |a| == |b| then 10 else 0), 10, 80)
  }

  function StrengthOf(c: int): Level
  {
    if Abs(c) > 70 then High else if Abs(c) > 40 then Medium else Low
  }

  datatype Correlation = Correlation(pair: string, hundredths: int, strength: Level)

  /** The entry pushed for the index pair (i, j): the predefined value when
      there is one, the clamped fallback otherwise. */
  function CorrelationEntry(patterns: map<string, int>, symbols: seq<string>, i: int, j: int): Correlation
    requires 0 <= i < j < |symbols|
  {
    var c := match PatternLookup(patterns, symbols[i], symbols[j])
             case Some(v) => v
             case None => FallbackCorrelation(i, j, symbols[i], symbols[j]);
    Correlation(PairLabel(symbols[i], symbols[j]), c, StrengthOf(c))
  }

  /** The entry is labelled `symbols[i]-symbols[j]`, carries the predefined
      value of either label order when there is a usable one and the fallback
      otherwise, and the strength label of its value. */
  lemma CorrelationEntrySpec(patterns: map<string, int>, symbols: seq<string>, i: int, j: int)
    requires 0 <= i < j < |symbols|
    ensures CorrelationEntry(patterns, symbols, i, j).pair == PairLabel(symbols[i], symbols[j])
    ensures CorrelationEntry(patterns, symbols, i, j).strength == StrengthOf(CorrelationEntry(patterns, symbols, i, j).hundredths)
    ensures PatternLookup(patterns, symbols[i], symbols[j]).Some? ==>
      CorrelationEntry(patterns, symbols, i, j).hundredths == PatternLookup(patterns, symbols[i], symbols[j]).value
    ensures PatternLookup(patterns, symbols[i], symbols[j]).None? ==>
      CorrelationEntry(patterns, symbols, i, j).hundredths == FallbackCorrelation(i, j, symbols[i], symbols[j])
  {
  }

  /** With the page's own table every entry lies in [0.10, 0.80]. */
  lemma EntryInRange(symbols: seq<string>, i: int, j: int)
    requires 0 <= i < j < |symbols|
    ensures 10 <= CorrelationEntry(CorrelationPatterns, symbols, i, j).hundredths <= 80
  {
    PatternsInRange();
    CorrelationEntrySpec(CorrelationPatterns, symbols, i, j);
  }

  /** The pairs (i, i+1), ..., (i, j-1), in the inner loop's order. */
  function RowPairs(i: int, j: int): (r: seq<(int, int)>)
    decreases j - i
    ensures forall k :: 0 <= k < |r| ==> r[k].0 == i && i < r[k].1 < j
    ensures |r| == if j <= i then 0 else j - i - 1
  {
    if j <= i + 1 then [] else RowPairs(i, j - 1) + [(i, j - 1)]
  }

  /** Row i holds every pair (i, p) with i < p < j, in increasing order of p. */
  lemma {:induction false} RowPairsSpec(i: int, j: int)
    decreases j - i
    ensures forall k, m :: 0 <= k < m < |RowPairs(i, j)| ==> RowPairs(i, j)[k].1 < RowPairs(i, j)[m].1
    ensures forall p :: i < p < j ==> (i, p) in RowPairs(i, j)
  {
    if j > i + 1 {
      RowPairsSpec(i, j - 1);
      var r := RowPairs(i, j - 1);
      assert RowPairs(i, j) == r + [(i, j - 1)];
      forall p | i < p < j ensures (i, p) in RowPairs(i, j) {
        if p < j - 1 {
          assert (i, p) in r;
        } else {
          assert RowPairs(i, j)[|r|] == (i, p);
        }
      }
    }
  }

  /** The pairs the nested loops visit for the first `i` values of the
      outer index. */
  function PairsBefore(i: nat, n: nat): (r: seq<(int, int)>)
    ensures PairsIn(r, n)
    ensures forall k :: 0 <= k < |r| ==> r[k].0 < i
  {
    if i == 0 then [] else PairsBefore(i - 1, n) + RowPairs(i - 1, n)
  }

  /** Every pair is an index pair i < j below `n`. */
  predicate PairsIn(ps: seq<(int, int)>, n: int)
  {
    forall k :: 0 <= k < |ps| ==> 0 <= ps[k].0 < ps[k].1 < n
  }

  /** Lexicographic order on index pairs. */
  predicate PairBefore(p: (int, int), q: (int, int))
  {
    p.0 < q.0 || (p.0 == q.0 && p.1 < q.1)
  }

  /** The visited pairs are exactly the pairs i < j < n. */
  lemma {:induction false} PairsBeforeMembers(i: nat, n: nat)
    requires i <= n
    ensures forall p :: p in PairsBefore(i, n) <==> 0 <= p.0 < i && p.0 < p.1 < n
  {
    if i > 0 {
      PairsBeforeMembers(i - 1, n);
      RowPairsSpec(i - 1, n);
      var a, b := PairsBefore(i - 1, n), RowPairs(i - 1, n);
      forall p: (int, int) | 0 <= p.0 < i && p.0 < p.1 < n ensures p in a + b {
        if p.0 < i - 1 {
          assert p in a;
        } else {
          assert p == (i - 1, p.1);
          assert p in b;
        }
      }
    }
  }

  /** They come in strictly increasing lexicographic order, so each is
      visited once. */
  lemma {:induction false} PairsBeforeOrdered(i: nat, n: nat)
    ensures forall k, m :: 0 <= k < m < |PairsBefore(i, n)| ==>
      PairBefore(PairsBefore(i, n)[k], PairsBefore(i, n)[m])
  {
    if i > 0 {
      PairsBeforeOrdered(i - 1, n);
      RowPairsSpec(i - 1, n);
      var a, b := PairsBefore(i - 1, n), RowPairs(i - 1, n);
      forall k, m | 0 <= k < m < |a + b| ensures PairBefore((a + b)[k], (a + b)[m]) {
        if m < |a| {
        } else if k < |a| {
          assert (a + b)[k] == a[k] && (a + b)[m] == b[m - |a|];
        } else {
          assert (a + b)[k] == b[k - |a|] && (a + b)[m] == b[m - |a|];
        }
      }
    }
  }

  /** There are n(n-1)/2 of them once the outer loop is done. */
  lemma {:induction false} PairsBeforeCount(i: nat, n: nat)
    requires i <= n
    ensures 2 * |PairsBefore(i, n)| == i * (2 * n - i - 1)
  {
    if i > 0 {
      PairsBeforeCount(i - 1, n);
      assert |PairsBefore(i, n)| == |PairsBefore(i - 1, n)| + (n - i);
      CountStep(i, n);
    }
  }

  lemma CountStep(i: int, n: int)
    ensures (i - 1) * (2 * n - (i - 1) - 1) + 2 * (n - i) == i * (2 * n - i - 1)
  {
  }

  /** The candidate list for the index pairs `ps`, in order. */
  function Entries(patterns: map<string, int>, symbols: seq<string>, ps: seq<(int, int)>): (r: seq<Correlation>)
    requires PairsIn(ps, |symbols|)
    ensures |r| == |ps|
  {
    seq(|ps|, k requires 0 <= k < |ps| => CorrelationEntry(patterns, symbols, ps[k].0, ps[k].1))
  }

  lemma EntriesAppend(patterns: map<string, int>, symbols: seq<string>, a: seq<(int, int)>, b: seq<(int, int)>)
    requires PairsIn(a, |symbols|) && PairsIn(b, |symbols|)
    ensures PairsIn(a + b, |symbols|)
    ensures Entries(patterns, symbols, a + b) == Entries(patterns, symbols, a) + Entries(patterns, symbols, b)
  {
    assert PairsIn(a + b, |symbols|) by {
      forall k | 0 <= k < |a + b| ensures 0 <= (a + b)[k].0 < (a + b)[k].1 < |symbols| {
        if k < |a| { assert (a + b)[k] == a[k]; } else { assert (a + b)[k] == b[k - |a|]; }
      }
    }
  }

  /** Every entry the nested loops push, in push order. */
  function Candidates(patterns: map<string, int>, symbols: seq<string>): seq<Correlation>
  {
    Entries(patterns, symbols, PairsBefore(|symbols|, |symbols|))
  }

  /** Sort key: descending absolute correlation. */
  function ByStrength(c: Correlation): real
  {
    -(Abs(c.hundredths) as real)
  }

  /** `correlations.sort(by |b| - |a|).slice(0, 10)`. */
  function CorrelationTable(patterns: map<string, int>, symbols: seq<string>): seq<Correlation>
  {
    Take(SortBy(Candidates(patterns, symbols), ByStrength), 10)
  }

  /** `calculateCorrelations`: the outer loop over the first index, then the
      sort and the cut to ten. The page passes its own `CorrelationPatterns`. */
  method CalculateCorrelations(patterns: map<string, int>, symbols: seq<string>)
    returns (candidates: seq<Correlation>, table: seq<Correlation>)
    ensures candidates == Candidates(patterns, symbols)
    ensures table == CorrelationTable(patterns, symbols)
  {
    var n := |symbols|;
    candidates := [];
    var i := 0;
    while i < n
      invariant 0 <= i <= n
      invariant PairsIn(PairsBefore(i, n), n)
      invariant candidates == Entries(patterns, symbols, PairsBefore(i, n))
    {
      var row := CorrelationRow(patterns, symbols, i);
      OuterStep(patterns, symbols, i);
      candidates := candidates + row;
      i := i + 1;
    }
    table := Take(SortBy(candidates, ByStrength), 10);
  }

  /** The inner loop of `calculateCorrelations`: the entries for (i, i+1),
      ..., (i, n-1), in that order. */
  method CorrelationRow(patterns: map<string, int>, symbols: seq<string>, i: nat)
    returns (row: seq<Correlation>)
    requires i < |symbols|
    ensures PairsIn(RowPairs(i, |symbols|), |symbols|)
    ensures row == Entries(patterns, symbols, RowPairs(i, |symbols|))
  {
    var n := |symbols|;
    row := [];
    var j := i + 1;
    RowPairsIn(i, j, n);
    while j < n
      invariant i + 1 <= j <= n
      invariant PairsIn(RowPairs(i, j), n)
      invariant row == Entries(patterns, symbols, RowPairs(i, j))
    {
      RowStep(patterns, symbols, i, j);
      row := row + [CorrelationEntry(patterns, symbols, i, j)];
      j := j + 1;
    }
  }

  lemma RowPairsIn(i: int, j: int, n: int)
    requires 0 <= i && j <= n
    ensures PairsIn(RowPairs(i, j), n)
  {
  }

  /** One more step of the inner loop pushes the entry for (i, j). */
  lemma RowStep(patterns: map<string, int>, symbols: seq<string>, i: int, j: int)
    requires 0 <= i < j < |symbols|
    ensures PairsIn(RowPairs(i, j), |symbols|) && PairsIn(RowPairs(i, j + 1), |symbols|)
    ensures Entries(patterns, symbols, RowPairs(i, j + 1)) ==
      Entries(patterns, symbols, RowPairs(i, j)) + [CorrelationEntry(patterns, symbols, i, j)]
  {
    RowPairsIn(i, j, |symbols|);
    RowPairsIn(i, j + 1, |symbols|);
    assert RowPairs(i, j + 1) == RowPairs(i, j) + [(i, j)];
    EntriesAppend(patterns, symbols, RowPairs(i, j), [(i, j)]);
  }

  /** One more step of the outer loop pushes the entries of row i. */
  lemma OuterStep(patterns: map<string, int>, symbols: seq<string>, i: nat)
    requires i < |symbols|
    ensures PairsIn(RowPairs(i, |symbols|), |symbols|)
    ensures Entries(patterns, symbols, PairsBefore(i + 1, |symbols|)) ==
      Entries(patterns, symbols, PairsBefore(i, |symbols|)) + Entries(patterns, symbols, RowPairs(i, |symbols|))
  {
    RowPairsIn(i, |symbols|, |symbols|);
    EntriesAppend(patterns, symbols, PairsBefore(i, |symbols|), RowPairs(i, |symbols|));
  }

  /** The nested loops push one candidate per index pair i < j ... */
  lemma CandidatesCount(patterns: map<string, int>, symbols: seq<string>)
    ensures 2 * |Candidates(patterns, symbols)| == |symbols| * (|symbols| - 1)
  {
    PairsBeforeCount(|symbols|, |symbols|);
  }

  /** ... every pair i < j gets its entry, labelled `symbols[i]-symbols[j]` ... */
  lemma CandidatesCover(patterns: map<string, int>, symbols: seq<string>, i: int, j: int)
    requires 0 <= i < j < |symbols|
    ensures CorrelationEntry(patterns, symbols, i, j) in Candidates(patterns, symbols)
  {
    var n := |symbols|;
    PairsBeforeMembers(n, n);
    var ps := PairsBefore(n, n);
    assert (i, j) in ps;
    var k :| 0 <= k < |ps| && ps[k] == (i, j);
    assert Candidates(patterns, symbols)[k] == CorrelationEntry(patterns, symbols, i, j);
  }

  /** ... and every candidate is the entry of such a pair. */
  lemma CandidatesOnly(patterns: map<string, int>, symbols: seq<string>, c: Correlation)
    requires c in Candidates(patterns, symbols)
    ensures exists i, j :: 0 <= i < j < |symbols| && c == CorrelationEntry(patterns, symbols, i, j)
  {
    var ps := PairsBefore(|symbols|, |symbols|);
    var cs := Candidates(patterns, symbols);
    var k :| 0 <= k < |cs| && cs[k] == c;
    assert c == CorrelationEntry(patterns, symbols, ps[k].0, ps[k].1);
  }

  /** The table: ten entries, or every pair when there are fewer, in
      non-increasing order of |correlation|, each a candidate carrying the
      strength label of its value, no candidate kept more often than it
      occurs, and no left-out candidate stronger than a kept one. */
  lemma CorrelationTableSpec(patterns: map<string, int>, symbols: seq<string>)
    ensures |CorrelationTable(patterns, symbols)| == Min(10, |symbols| * (|symbols| - 1) / 2)
    ensures forall a, b :: 0 <= a < b < |CorrelationTable(patterns, symbols)| ==>
      Abs(CorrelationTable(patterns, symbols)[a].hundredths) >= Abs(CorrelationTable(patterns, symbols)[b].hundredths)
    ensures forall c :: c in CorrelationTable(patterns, symbols) ==>
      c in Candidates(patterns, symbols) && c.strength == StrengthOf(c.hundredths)
    ensures multiset(CorrelationTable(patterns, symbols)) <= multiset(Candidates(patterns, symbols))
    ensures forall a, b :: 0 <= a < |CorrelationTable(patterns, symbols)| <= b < |Candidates(patterns, symbols)| ==>
      Abs(CorrelationTable(patterns, symbols)[a].hundredths) >=
      Abs(SortBy(Candidates(patterns, symbols), ByStrength)[b].hundredths)
  {
    CandidatesCount(patterns, symbols);
    var cs := Candidates(patterns, symbols);
    HalfOf(|cs|, |symbols| * (|symbols| - 1));
    TopOfSort(cs, ByStrength, 10);
    var t := CorrelationTable(patterns, symbols);
    forall a, b | 0 <= a < b < |t| ensures Abs(t[a].hundredths) >= Abs(t[b].hundredths) {
      assert ByStrength(t[a]) <= ByStrength(t[b]);
    }
    forall c | c in t ensures c in cs && c.strength == StrengthOf(c.hundredths) {
      CandidatesOnly(patterns, symbols, c);
      var i, j :| 0 <= i < j < |symbols| && c == CorrelationEntry(patterns, symbols, i, j);
      CorrelationEntrySpec(patterns, symbols, i, j);
    }
    forall a, b | 0 <= a < |t| <= b < |cs|
      ensures Abs(t[a].hundredths) >= Abs(SortBy(cs, ByStrength)[b].hundredths)
    {
      assert ByStrength(t[a]) <= ByStrength(SortBy(cs, ByStrength)[b]);
    }
  }

  /** With the page's own table every reported correlation lies in
      [0.10, 0.80]. */
  lemma CorrelationTableRange(symbols: seq<string>)
    ensures forall c :: c in CorrelationTable(CorrelationPatterns, symbols) ==> 10 <= c.hundredths <= 80
  {
    CorrelationTableSpec(CorrelationPatterns, symbols);
    forall c | c in CorrelationTable(CorrelationPatterns, symbols) ensures 10 <= c.hundredths <= 80 {
      CandidatesOnly(CorrelationPatterns, symbols, c);
      var i, j :| 0 <= i < j < |symbols| && c == CorrelationEntry(CorrelationPatterns, symbols, i, j);
      EntryInRange(symbols, i, j);
    }
  }

  lemma HalfOf(a: int, b: int)
    requires 2 * a == b
    ensures a == b / 2
  {
  }

  // ---------------------------------------------------------------------------
  // Diversification

  /** The allocations are percentages, so the index is a sum of squared
      percentages (0..10000), not of fractions. */
  datatype Diversification = Diversification(herfindahl: real, effectiveN: JsNumber, concentration: Level)

  function SquaresOf(xs: seq<real>): (r: seq<real>)
    ensures |r| == |xs| && forall i :: 0 <= i < |xs| ==> r[i] == xs[i] * xs[i]
  {
    seq(|xs|, i requires 0 <= i < |xs| => xs[i] * xs[i])
  }

  function HerfindahlIndex(rows: seq<PerformanceRow>): real
  {
    Sum(SquaresOf(AllocationsOf(rows)))
  }

  function ConcentrationOf(h: real): Level
  {
    if h > 0.25 then High else if h > 0.15 then Medium else Low
  }

  /** `calculateDiversification`; `1 / 0` is `Infinity` in JavaScript. */
  function DiversificationOf(rows: seq<PerformanceRow>): (r: Diversification)
    ensures r.herfindahl >= 0.0
    ensures r.herfindahl == 0.0 <==> r.effectiveN.PositiveInfinity?
    ensures r.herfindahl > 0.0 ==> r.effectiveN == Finite(1.0 / r.herfindahl)
  {
    var h := HerfindahlIndex(rows);
    SquaresNonNegative(AllocationsOf(rows), SquaresOf(AllocationsOf(rows)));
    Diversification(h, if h == 0.0 then PositiveInfinity else Finite(1.0 / h), ConcentrationOf(h))
  }

  /** Because the allocations are percentages that add up to 100, the index is
      at least 10000 / n (Cauchy-Schwarz), so with a positive total and fewer
      than 40000 holdings the page always reports 'High' concentration. */
  lemma AlwaysHighConcentration(hs: seq<HoldingView>)
    requires ViewTotal(hs) > 0.0
    requires |hs| < 40000
    ensures |hs| as real * HerfindahlIndex(PerformanceRows(hs)) >= 10000.0
    ensures DiversificationOf(PerformanceRows(hs)).concentration == High
  {
    var rows := PerformanceRows(hs);
    var a := AllocationsOf(rows);
    RowAllocationsSumTo100(hs);
    SumSquaresBound(a, SquaresOf(a));
    var h := HerfindahlIndex(rows);
    var n := |hs| as real;
    assert n * h >= 10000.0;
    assert n < 40000.0;
    HighIndex(n, h);
  }

  lemma HighIndex(n: real, h: real)
    requires 0.0 < n < 40000.0 && n * h >= 10000.0
    ensures h > 0.25
  {
  }

  /** Two holdings of equal value: each row has allocation 50 and the index is
      5000, where a sum of squared fractions would give 0.5. */
  lemma TwoEqualHoldings()
    ensures PerformanceRows([HoldingView("BTC", Some(25000.0), Some(0.0)),
                             HoldingView("ETH", Some(25000.0), Some(0.0))])[0].allocation == 50.0
    ensures HerfindahlIndex(PerformanceRows([HoldingView("BTC", Some(25000.0), Some(0.0)),
                                             HoldingView("ETH", Some(25000.0), Some(0.0))])) == 5000.0
  {
    var hs := [HoldingView("BTC", Some(25000.0), Some(0.0)), HoldingView("ETH", Some(25000.0), Some(0.0))];
    assert ValuesOf(hs) == [25000.0, 25000.0];
    assert ViewTotal(hs) == 50000.0;
    var rows := PerformanceRows(hs);
    assert AllocationsOf(rows) == [50.0, 50.0];
    assert SquaresOf(AllocationsOf(rows)) == [2500.0, 2500.0];
  }

  // ---------------------------------------------------------------------------
  // Top performers and losers

  function ByPerformanceDesc(r: PerformanceRow): real { -r.performance }

  function ByPerformanceAsc(r: PerformanceRow): real { r.performance }

  /** `[...rows].sort((a, b) => b.performance - a.performance).slice(0, 5)`. */
  function TopPerformers(rows: seq<PerformanceRow>): seq<PerformanceRow>
  {
    Take(SortBy(rows, ByPerformanceDesc), 5)
  }

  /** `[...rows].sort((a, b) => a.performance - b.performance).slice(0, 5)`. */
  function TopLosers(rows: seq<PerformanceRow>): seq<PerformanceRow>
  {
    Take(SortBy(rows, ByPerformanceAsc), 5)
  }

  /** The performers: min(5, n) rows of the input (no row more often than
      it occurs), in non-increasing order of performance, and no row left out
      performs better than one kept. */
  lemma TopPerformersSpec(rows: seq<PerformanceRow>)
    ensures |TopPerformers(rows)| == Min(5, |rows|)
    ensures forall r :: r in TopPerformers(rows) ==> r in rows
    ensures multiset(TopPerformers(rows)) <= multiset(rows)
    ensures forall a, b :: 0 <= a < b < |TopPerformers(rows)| ==>
      TopPerformers(rows)[a].performance >= TopPerformers(rows)[b].performance
    ensures forall a, b :: 0 <= a < |TopPerformers(rows)| <= b < |rows| ==>
      TopPerformers(rows)[a].performance >= SortBy(rows, ByPerformanceDesc)[b].performance
  {
    TopOfSort(rows, ByPerformanceDesc, 5);
    var tp := TopPerformers(rows);
    forall a, b | 0 <= a < b < |tp| ensures tp[a].performance >= tp[b].performance {
      assert ByPerformanceDesc(tp[a]) <= ByPerformanceDesc(tp[b]);
    }
    forall a, b | 0 <= a < |tp| <= b < |rows|
      ensures tp[a].performance >= SortBy(rows, ByPerformanceDesc)[b].performance
    {
      assert ByPerformanceDesc(tp[a]) <= ByPerformanceDesc(SortBy(rows, ByPerformanceDesc)[b]);
    }
  }

  /** The losers: min(5, n) rows of the input (no row more often than it
      occurs), in non-decreasing order of performance, and no row left out
      performs worse than one kept. */
  lemma TopLosersSpec(rows: seq<PerformanceRow>)
    ensures |TopLosers(rows)| == Min(5, |rows|)
    ensures forall r :: r in TopLosers(rows) ==> r in rows
    ensures multiset(TopLosers(rows)) <= multiset(rows)
    ensures forall a, b :: 0 <= a < b < |TopLosers(rows)| ==>
      TopLosers(rows)[a].performance <= TopLosers(rows)[b].performance
    ensures forall a, b :: 0 <= a < |TopLosers(rows)| <= b < |rows| ==>
      TopLosers(rows)[a].performance <= SortBy(rows, ByPerformanceAsc)[b].performance
  {
    TopOfSort(rows, ByPerformanceAsc, 5);
  }

  // ---------------------------------------------------------------------------
  // The whole analysis

  datatype AnalysisData = AnalysisData(
    totalValue: real,
    performanceData: seq<PerformanceRow>,
    riskMetrics: RiskMetrics,
    correlationData: seq<Correlation>,
    diversificationMetrics: Diversification,
    topPerformers: seq<PerformanceRow>,
    topLosers: seq<PerformanceRow>)

  function SymbolsOf(rows: seq<PerformanceRow>): (r: seq<string>)
    ensures |r| == |rows| && forall i :: 0 <= i < |rows| ==> r[i] == rows[i].symbol
  {
    seq(|rows|, i requires 0 <= i < |rows| => rows[i].symbol)
  }

  /** `analysisData`: nothing for an empty portfolio, otherwise every figure
      computed from the same performance rows, which the top-5 sorts leave in
      holding order. */
  function Analyze(hs: seq<HoldingView>): (r: Option<AnalysisData>)
    ensures r.None? <==> |hs| == 0
    ensures r.Some? ==>
      && r.value.totalValue == ViewTotal(hs)
      && r.value.performanceData == PerformanceRows(hs)
      && |r.value.performanceData| == |hs|
      && |r.value.topPerformers| == Min(5, |hs|) && |r.value.topLosers| == Min(5, |hs|)
      && |r.value.correlationData| == Min(10, |hs| * (|hs| - 1) / 2)
  {
    if |hs| == 0 then None
    else
      var rows := PerformanceRows(hs);
      TopPerformersSpec(rows);
      TopLosersSpec(rows);
      CorrelationTableSpec(CorrelationPatterns, SymbolsOf(rows));
      Some(AnalysisData(
        ViewTotal(hs),
        rows,
        RiskMetricsOf(rows),
        CorrelationTable(CorrelationPatterns, SymbolsOf(rows)),
        DiversificationOf(rows),
        TopPerformers(rows),
        TopLosers(rows)))
  }
}
