/** The 7-day price forecast of the backend (backend/services/binance_service.py,
    `get_7day_forecast`): the average daily percentage change over the closing
    prices of the last days, compounded forward seven times from the last
    close. The closes arrive as a parameter; fetching them is not modelled. */
module Forecast {
  import opened Basics

  /** Python's `ZeroDivisionError`, raised by `/` with a zero divisor. */
  datatype ForecastError = ZeroDivisionError

  /** One forecast entry: the number of days after today and the price. */
  datatype ForecastPoint = ForecastPoint(daysAhead: int, price: real)

  datatype PriceForecast = PriceForecast(symbol: string, currentPrice: real, forecast: seq<ForecastPoint>)

  const ForecastDays := 7

  /** `((curr_close - prev_close) / prev_close) * 100`. */
  function DailyChange(prev: real, curr: real): real
    requires prev != 0.0
  {
    (curr - prev) / prev * 100.0
  }

  /** Some close that serves as a previous close (all but the last) is 0. */
  predicate HasZeroPrevious(closes: seq<real>)
  {
    exists i :: 0 <= i < |closes| - 1 && closes[i] == 0.0
  }

  /** `daily_changes`: the change from each close to the next. */
  function DailyChanges(closes: seq<real>): (r: seq<real>)
    requires !HasZeroPrevious(closes)
    ensures |r| == if |closes| >= 1 then |closes| - 1 else 0
    ensures forall i :: 0 <= i < |r| ==> r[i] == DailyChange(closes[i], closes[i + 1])
  {
    if |closes| < 2 then []
    else seq(|closes| - 1, i requires 0 <= i < |closes| - 1 => DailyChange(closes[i], closes[i + 1]))
  }

  /** `sum(daily_changes) / len(daily_changes)`. */
  function AverageChange(closes: seq<real>): real
    requires |closes| >= 2 && !HasZeroPrevious(closes)
  {
    Sum(DailyChanges(closes)) / (|closes| - 1) as real
  }

  /** The factor `1 + avg / 100` applied once a day. */
  function Growth(avg: real): real
  {
    1.0 + avg / 100.0
  }

  function Pow(x: real, k: nat): real
  {
    if k == 0 then 1.0 else x * Pow(x, k - 1)
  }

  /** The forecast after compounding: day d (1..7) is `last · growth^d`. */
  function CompoundedPrices(last: real, growth: real): (r: seq<ForecastPoint>)
    ensures |r| == ForecastDays
  {
    seq(ForecastDays, k requires 0 <= k < ForecastDays => ForecastPoint(k + 1, last * Pow(growth, k + 1)))
  }

  /** What `get_7day_forecast` returns for `closes`, or the error it raises:
      with fewer than two closes `daily_changes` is empty and the average
      divides by zero, and a zero previous close divides by zero in the loop. */
  function ForecastOf(symbol: string, closes: seq<real>): Result<PriceForecast, ForecastError>
  {
    if |closes| < 2 || HasZeroPrevious(closes) then Err(ZeroDivisionError)
    else
      var last := closes[|closes| - 1];
      Ok(PriceForecast(symbol, last, CompoundedPrices(last, Growth(AverageChange(closes)))))
  }

  /** `get_7day_forecast` over the closing prices: the loop collecting the
      daily changes, the average, and the compounding loop. */
  method Get7DayForecast(symbol: string, closes: seq<real>) returns (r: Result<PriceForecast, ForecastError>)
    ensures r == ForecastOf(symbol, closes)
  {
    var dailyChanges: seq<real> := [];
    var i := 1;
    while i < |closes|
      invariant 1 <= i <= if |closes| == 0 then 1 else |closes|
      invariant |dailyChanges| == i - 1
      invariant forall k :: 0 <= k < i - 1 ==> closes[k] != 0.0
      invariant forall k :: 0 <= k < i - 1 ==> dailyChanges[k] == DailyChange(closes[k], closes[k + 1])
    {
      var prevClose := closes[i - 1];
      var currClose := closes[i];
      if prevClose == 0.0 {
        assert HasZeroPrevious(closes) by {
          assert 0 <= i - 1 < |closes| - 1 && closes[i - 1] == 0.0;
        }
        return Err(ZeroDivisionError);
      }
      dailyChanges := dailyChanges + [DailyChange(prevClose, currClose)];
      i := i + 1;
    }
    if |dailyChanges| == 0 {
      return Err(ZeroDivisionError);
    }
    CollectedChanges(closes, dailyChanges);
    var avgDailyChange := Sum(dailyChanges) / |dailyChanges| as real;
    var lastPrice := closes[|closes| - 1];
    var forecast := CompoundForward(lastPrice, Growth(avgDailyChange));
    return Ok(PriceForecast(symbol, lastPrice, forecast));
  }

  /** The changes the first loop collects are `DailyChanges`, and their
      average is `AverageChange`. */
  lemma CollectedChanges(closes: seq<real>, ds: seq<real>)
    requires |ds| == |closes| - 1 && |ds| > 0
    requires forall k :: 0 <= k < |ds| ==> closes[k] != 0.0
    requires forall k :: 0 <= k < |ds| ==> ds[k] == DailyChange(closes[k], closes[k + 1])
    ensures !HasZeroPrevious(closes)
    ensures ds == DailyChanges(closes)
    ensures Sum(ds) / |ds| as real == AverageChange(closes)
  {
  }

  /** The compounding loop of `get_7day_forecast`: seven times, multiply the
      running price by the factor and record it. */
  method CompoundForward(lastPrice: real, growth: real) returns (forecast: seq<ForecastPoint>)
    ensures forecast == CompoundedPrices(lastPrice, growth)
  {
    forecast := [];
    var currentPrice := lastPrice;
    var day := 0;
    while day < ForecastDays
      invariant 0 <= day <= ForecastDays
      invariant currentPrice == lastPrice * Pow(growth, day)
      invariant forecast == CompoundedPrices(lastPrice, growth)[..day]
    {
      CompoundStep(lastPrice, growth, day, currentPrice);
      currentPrice := currentPrice * growth;
      forecast := forecast + [ForecastPoint(day + 1, currentPrice)];
      day := day + 1;
    }
  }

  /** One more day multiplies the price by the growth factor and adds the
      next entry of the compounded forecast. */
  lemma CompoundStep(last: real, g: real, d: nat, current: real)
    requires d < ForecastDays && current == last * Pow(g, d)
    ensures current * g == last * Pow(g, d + 1)
    ensures CompoundedPrices(last, g)[..d + 1] ==
      CompoundedPrices(last, g)[..d] + [ForecastPoint(d + 1, current * g)]
  {
    var p := Pow(g, d);
    assert Pow(g, d + 1) == g * p;
    MultiplyAssociates(last, p, g);
    var f := CompoundedPrices(last, g);
    assert f[d] == ForecastPoint(d + 1, last * Pow(g, d + 1));
    assert f[..d + 1] == f[..d] + [f[d]];
  }

  lemma MultiplyAssociates(a: real, b: real, c: real)
    ensures a * b * c == a * (c * b)
  {
  }

  /** The forecast fails exactly when a division by zero happens. */
  lemma ForecastErrorCases(symbol: string, closes: seq<real>)
    ensures ForecastOf(symbol, closes).Err? <==>
      |closes| < 2 || exists i :: 0 <= i < |closes| - 1 && closes[i] == 0.0
  {
  }

  // ---------------------------------------------------------------------------
  // Compounding, for any last close and growth factor

  /** Each price is the one before it times the factor. */
  lemma CompoundedNext(last: real, g: real, k: nat)
    requires k < 6
    ensures CompoundedPrices(last, g)[k + 1].price == CompoundedPrices(last, g)[k].price * g
  {
    CompoundStep(last, g, k + 1, CompoundedPrices(last, g)[k].price);
  }

  /** A seven-day forecast where day d is d days ahead, the first price is
      `start` times the factor and each later one the previous price times
      the factor. */
  predicate Compounds(f: seq<ForecastPoint>, start: real, g: real)
  {
    && |f| == ForecastDays
    && (forall k :: 0 <= k < |f| ==> f[k].daysAhead == k + 1)
    && f[0].price == start * g
    && (forall k :: 0 <= k < |f| - 1 ==> f[k + 1].price == f[k].price * g)
  }

  /** The compounded prices are the running products of the loop. */
  lemma CompoundedShape(last: real, g: real)
    ensures Compounds(CompoundedPrices(last, g), last, g)
  {
    assert Pow(g, 1) == g * Pow(g, 0);
    forall k | 0 <= k < 6
      ensures CompoundedPrices(last, g)[k + 1].price == CompoundedPrices(last, g)[k].price * g
    {
      CompoundedNext(last, g, k);
    }
  }

  /** The price of day k + 1 is non-negative when the last close and the
      factor are, and positive when both are positive. */
  lemma CompoundedSignAt(last: real, g: real, k: nat)
    requires k < 7 && last >= 0.0 && g >= 0.0
    ensures CompoundedPrices(last, g)[k].price >= 0.0
    ensures last > 0.0 && g > 0.0 ==> CompoundedPrices(last, g)[k].price > 0.0
  {
    var p := Pow(g, k + 1);
    PowNonNegative(g, k + 1);
    NonNegativeProduct(last, p);
    if last > 0.0 && g > 0.0 {
      PowPositive(g, k + 1);
      PositiveProduct(last, p, last * p);
    }
  }

  /** Every compounded price is non-negative when the last close and the
      factor are, and positive when both are positive. */
  lemma CompoundedSign(last: real, g: real)
    requires last >= 0.0 && g >= 0.0
    ensures forall k :: 0 <= k < 7 ==> CompoundedPrices(last, g)[k].price >= 0.0
    ensures last > 0.0 && g > 0.0 ==> forall k :: 0 <= k < 7 ==> CompoundedPrices(last, g)[k].price > 0.0
  {
    forall k | 0 <= k < 7
      ensures CompoundedPrices(last, g)[k].price >= 0.0
      ensures last > 0.0 && g > 0.0 ==> CompoundedPrices(last, g)[k].price > 0.0
    {
      CompoundedSignAt(last, g, k);
    }
  }

  /** A factor of at least 1 never lowers the price, one in [0, 1] never
      raises it. */
  lemma CompoundedTrend(last: real, g: real)
    requires last >= 0.0 && g >= 0.0
    ensures g >= 1.0 ==> forall k :: 0 <= k < 6 ==>
      CompoundedPrices(last, g)[k].price <= CompoundedPrices(last, g)[k + 1].price
    ensures g <= 1.0 ==> forall k :: 0 <= k < 6 ==>
      CompoundedPrices(last, g)[k].price >= CompoundedPrices(last, g)[k + 1].price
  {
    forall k | 0 <= k < 6
      ensures g >= 1.0 ==> CompoundedPrices(last, g)[k].price <= CompoundedPrices(last, g)[k + 1].price
      ensures g <= 1.0 ==> CompoundedPrices(last, g)[k].price >= CompoundedPrices(last, g)[k + 1].price
    {
      var p := CompoundedPrices(last, g)[k].price;
      CompoundedNext(last, g, k);
      CompoundedSignAt(last, g, k);
      if g >= 1.0 {
        ScaleUp(p, g);
      }
      if g <= 1.0 {
        ScaleDown(p, g);
      }
    }
  }

  /** A factor of 1 repeats the last close. */
  lemma CompoundedFlat(last: real)
    ensures forall k :: 0 <= k < 7 ==> CompoundedPrices(last, 1.0)[k].price == last
  {
    forall k | 0 <= k < 7 ensures CompoundedPrices(last, 1.0)[k].price == last {
      PowOne(k + 1);
    }
  }

  lemma {:induction false} PowNonNegative(g: real, k: nat)
    requires g >= 0.0
    ensures Pow(g, k) >= 0.0
  {
    if k > 0 {
      PowNonNegative(g, k - 1);
      NonNegativeProduct(g, Pow(g, k - 1));
    }
  }

  lemma {:induction false} PowPositive(g: real, k: nat)
    requires g > 0.0
    ensures Pow(g, k) > 0.0
  {
    if k > 0 {
      PowPositive(g, k - 1);
      PositiveProduct(g, Pow(g, k - 1), Pow(g, k));
    }
  }

  lemma {:induction false} PowOne(k: nat)
    ensures Pow(1.0, k) == 1.0
  {
    if k > 0 {
      PowOne(k - 1);
    }
  }

  lemma NonNegativeProduct(a: real, b: real)
    requires a >= 0.0 && b >= 0.0
    ensures a * b >= 0.0
  {
  }

  lemma ScaleUp(p: real, g: real)
    requires p >= 0.0 && g >= 1.0
    ensures p <= p * g
  {
  }

  lemma ScaleDown(p: real, g: real)
    requires p >= 0.0 && 0.0 <= g <= 1.0
    ensures p >= p * g
  {
  }

  // ---------------------------------------------------------------------------
  // The forecast of a price history

  /** A forecast reports the symbol, the last close as the current price and
      seven entries, one per day ahead, each the previous day's price (the
      last close for the first) times `1 + avg / 100`. */
  lemma ForecastShape(symbol: string, closes: seq<real>)
    requires ForecastOf(symbol, closes).Ok?
    ensures ForecastOf(symbol, closes).value.symbol == symbol
    ensures ForecastOf(symbol, closes).value.currentPrice == closes[|closes| - 1]
    ensures Compounds(ForecastOf(symbol, closes).value.forecast, closes[|closes| - 1], Growth(AverageChange(closes)))
  {
    ForecastIsCompounded(symbol, closes);
    CompoundedShape(closes[|closes| - 1], Growth(AverageChange(closes)));
  }

  /** A successful forecast is the compounding of the last close by the
      average change, and it needed at least two closes and no zero
      previous close. */
  lemma ForecastIsCompounded(symbol: string, closes: seq<real>)
    requires ForecastOf(symbol, closes).Ok?
    ensures |closes| >= 2 && !HasZeroPrevious(closes)
    ensures ForecastOf(symbol, closes).value ==
      PriceForecast(symbol, closes[|closes| - 1], CompoundedPrices(closes[|closes| - 1], Growth(AverageChange(closes))))
  {
  }

  /** With a non-negative last close, a non-negative average change gives a
      forecast that never falls and an average in [-100, 0] one that never
      rises. */
  lemma ForecastTrend(symbol: string, closes: seq<real>)
    requires ForecastOf(symbol, closes).Ok? && closes[|closes| - 1] >= 0.0
    ensures AverageChange(closes) >= 0.0 ==> forall k :: 0 <= k < 6 ==>
      ForecastOf(symbol, closes).value.forecast[k].price <= ForecastOf(symbol, closes).value.forecast[k + 1].price
    ensures -100.0 <= AverageChange(closes) <= 0.0 ==> forall k :: 0 <= k < 6 ==>
      ForecastOf(symbol, closes).value.forecast[k].price >= ForecastOf(symbol, closes).value.forecast[k + 1].price
  {
    ForecastIsCompounded(symbol, closes);
    var avg := AverageChange(closes);
    if avg >= -100.0 {
      CompoundedTrend(closes[|closes| - 1], Growth(avg));
    }
  }

  /** When every close is positive, each daily change is above -100, hence
      so is the average, and every forecast price is positive. */
  lemma PositiveClosesGivePositiveForecast(symbol: string, closes: seq<real>)
    requires |closes| >= 2
    requires forall i :: 0 <= i < |closes| ==> closes[i] > 0.0
    ensures ForecastOf(symbol, closes).Ok?
    ensures AverageChange(closes) > -100.0
    ensures forall k :: 0 <= k < 7 ==> ForecastOf(symbol, closes).value.forecast[k].price > 0.0
  {
    AverageAboveMinus100(closes);
    ForecastIsCompounded(symbol, closes);
    GrowthPositive(AverageChange(closes));
    CompoundedSign(closes[|closes| - 1], Growth(AverageChange(closes)));
  }

  /** Positive closes have no zero previous close and an average change
      above -100. */
  lemma AverageAboveMinus100(closes: seq<real>)
    requires |closes| >= 2
    requires forall i :: 0 <= i < |closes| ==> closes[i] > 0.0
    ensures !HasZeroPrevious(closes)
    ensures AverageChange(closes) > -100.0
  {
    ChangesAboveMinus100(closes);
    QuotientOfSumAbove(DailyChanges(closes), -100.0);
  }

  lemma QuotientOfSumAbove(xs: seq<real>, lo: real)
    requires |xs| > 0
    requires forall k :: 0 <= k < |xs| ==> xs[k] > lo
    ensures Sum(xs) / |xs| as real > lo
  {
    SumAbove(xs, lo);
    QuotientAbove(Sum(xs), |xs| as real, lo);
  }

  lemma ChangesAboveMinus100(closes: seq<real>)
    requires forall i :: 0 <= i < |closes| ==> closes[i] > 0.0
    ensures !HasZeroPrevious(closes)
    ensures forall k :: 0 <= k < |DailyChanges(closes)| ==> DailyChanges(closes)[k] > -100.0
  {
    assert !HasZeroPrevious(closes);
    forall k | 0 <= k < |DailyChanges(closes)| ensures DailyChanges(closes)[k] > -100.0 {
      ChangeAboveMinus100(closes[k], closes[k + 1]);
    }
  }

  lemma GrowthPositive(avg: real)
    requires avg > -100.0
    ensures Growth(avg) > 0.0
  {
  }

  lemma ChangeAboveMinus100(prev: real, curr: real)
    requires prev > 0.0 && curr > 0.0
    ensures DailyChange(prev, curr) > -100.0
  {
    var q := (curr - prev) / prev;
    assert q * prev == curr - prev;
    QuotientAboveMinusOne(prev, curr, q);
  }

  lemma QuotientAboveMinusOne(prev: real, curr: real, q: real)
    requires prev > 0.0 && curr > 0.0 && q * prev == curr - prev
    ensures q > -1.0
  {
    if q <= -1.0 {
      NonPositiveScaled(q + 1.0, prev);
    }
  }

  lemma NonPositiveScaled(a: real, b: real)
    requires a <= 0.0 && b > 0.0
    ensures a * b <= 0.0
  {
  }

  lemma QuotientAbove(s: real, n: real, lo: real)
    requires n > 0.0 && s > n * lo
    ensures s / n > lo
  {
  }

  /** A history of one repeated (non-zero) close forecasts that same price
      every day. */
  lemma FlatHistoryFlatForecast(symbol: string, closes: seq<real>, c: real)
    requires |closes| >= 2 && c != 0.0
    requires forall i :: 0 <= i < |closes| ==> closes[i] == c
    ensures ForecastOf(symbol, closes).Ok?
    ensures forall k :: 0 <= k < 7 ==> ForecastOf(symbol, closes).value.forecast[k].price == c
  {
    assert !HasZeroPrevious(closes);
    var ds := DailyChanges(closes);
    forall k | 0 <= k < |ds| ensures ds[k] == 0.0 {
      assert closes[k] == c && closes[k + 1] == c;
      ZeroChange(c);
    }
    SumZero(ds);
    var avg := AverageChange(closes);
    assert avg == 0.0;
    assert Growth(avg) == 1.0;
    assert ForecastOf(symbol, closes) == Ok(PriceForecast(symbol, c, CompoundedPrices(c, 1.0)));
    CompoundedFlat(c);
  }

  lemma ZeroChange(c: real)
    requires c != 0.0
    ensures DailyChange(c, c) == 0.0
  {
  }

  lemma {:induction false} SumZero(xs: seq<real>)
    requires forall k :: 0 <= k < |xs| ==> xs[k] == 0.0
    ensures Sum(xs) == 0.0
  {
    if xs != [] {
      SumZero(xs[1..]);
    }
  }
}
