# Crypto portfolio tracker: a verified model of its core logic

This project is a Dafny model of the logic inside a browser-based cryptocurrency
portfolio tracker with a small Python price backend. It strips away the network,
the streaming and the rendering, and keeps the sequential logic that sits
between them:

- **Holdings store** (`holdings.dfy`, module `Holdings`). The portfolio
  provider keeps a list of holding records (`id, symbol, amount, value,
  change24h, allocation`). Its operations are:
  - build the 20-row default seed list;
  - merge a streamed price message;
  - merge the startup price lookups;
  - recompute every allocation as a percentage of the total value;
  - delete by id;
  - append a new holding.

  The provider's state is the class `PortfolioStore`. Each of its methods
  applies one updater function and then the allocation recompute, which the
  change of `holdings` triggers.
- **Analytics engine** (`analytics.dfy`, module `Analytics`). It holds:
  - the per-holding performance rows, with `x || 0` defaults;
  - mean and variance of the returns;
  - the running-peak maximum-drawdown loop, with JavaScript's NaN and
    Infinity where the peak is 0;
  - the pairwise correlation table: a fixed lookup, a clamped fallback, sorted
    by strength and cut to ten;
  - the Herfindahl index and concentration label;
  - the top-5 gainers and losers;
  - the whole `analysisData` value of the page.
- **Holdings search** (`search.dfy`, module `Search`). It lists the holdings
  whose lower-cased symbol contains the lower-cased term.
- **Wallet sync page** (`wallets.dfy`, module `Wallets`). It holds the wallet
  list, the address field, the submit handler that appends a wallet, and the
  remove handler. The page's state is the class `WalletSyncPage`.
- **7-day forecast** (`forecast.dfy`, module `Forecast`). It covers the
  arithmetic of the backend's `get_7day_forecast`, over a sequence of closing
  prices:
  - the daily percentage changes;
  - their mean;
  - seven compounding steps from the last close.

  Python's `ZeroDivisionError` is modelled as an error result.
- `basics.dfy` (module `Basics`) holds shared pieces: `Option`/`Result`, sums
  over reals, a generic `Filter` (JavaScript `Array.filter`), and a stable
  insertion sort by a real key (`Array.sort`, which is stable).

Numbers are Dafny `real`s. Correlations are integer hundredths: every
predefined value and every fallback value is a whole number of hundredths.

Three facts about the code shape what the model states:

- The Herfindahl index is computed over allocation percentages, not fractions,
  so it ranges 0..10000. The 0.25 and 0.15 thresholds then label every
  portfolio with positive value and fewer than 40000 holdings 'High'
  (`Analytics.AlwaysHighConcentration`, `Analytics.TwoEqualHoldings`).
- A new holding's id is a clock reading, and its value is computed from the
  last streamed price message (see Findings).
- Each forecast entry has only a date and a price.

## Model

| member | source | states |
|---|---|---|
| Holdings.Seed | frontend/src/context/PortfolioContext.jsx:64-71 | the seed list has one holding per entry of the 20-entry default table |
| Holdings.SeedRows | frontend/src/context/PortfolioContext.jsx:64-71 | seed row i is table entry i (symbol and amount), has id i + 1, and has value, change and allocation 0 |
| Holdings.SeedDistinct | frontend/src/context/PortfolioContext.jsx:8-29 | the seed list repeats no id and no symbol |
| Holdings.ApplySnapshot | frontend/src/context/PortfolioContext.jsx:43-56 | the merge keeps the length and order of the list, and keeps every holding's id, symbol, amount and allocation |
| Holdings.ApplySnapshotEffect | frontend/src/context/PortfolioContext.jsx:44-55 | a quoted holding gets value = amount × price and the quoted 24h change; an unquoted holding is returned unchanged |
| Holdings.ApplySnapshotCompose | frontend/src/context/PortfolioContext.jsx:43-56 | two messages in a row act as one message holding both, the later winning on shared symbols |
| Holdings.ApplySnapshotIdempotent | frontend/src/context/PortfolioContext.jsx:43-56 | merging the same message twice is merging it once |
| Holdings.ApplyEmptySnapshot | frontend/src/context/PortfolioContext.jsx:43-56 | a message with no quotes changes nothing |
| Holdings.FindPrice | frontend/src/context/PortfolioContext.jsx:96 | the lookup finds nothing exactly when no result has the symbol; otherwise it finds the first result with that symbol |
| Holdings.ValidPrices | frontend/src/context/PortfolioContext.jsx:91 | the kept results are exactly the successful ones |
| Holdings.ValidPricesAppend | frontend/src/context/PortfolioContext.jsx:91 | filtering a concatenation concatenates the filtered parts, so the successful results keep their order and their repeats |
| Holdings.FindFirstSuccess | frontend/src/context/PortfolioContext.jsx:91-96 | looking a symbol up among the kept results gives the first successful result with that symbol in lookup order, and nothing exactly when no successful result has it |
| Holdings.ApplyInitialPrices | frontend/src/context/PortfolioContext.jsx:94-105 | the startup merge keeps the length, order, ids, symbols, amounts and allocations |
| Holdings.InitialPricesPerHolding | frontend/src/context/PortfolioContext.jsx:76-105 | with one lookup per holding and distinct symbols, a holding is priced by its own lookup when it succeeded, and is unchanged when it failed |
| Holdings.FailedLookupKeepsZero | frontend/src/context/PortfolioContext.jsx:84-105 | on the seed list, a holding whose lookup failed keeps value 0 and change 0 |
| Holdings.TotalValue | frontend/src/context/PortfolioContext.jsx:125 | the sum of the holdings' values; its properties are stated by TotalValueNonNegative and AllocationsSumTo100 |
| Holdings.TotalValueNonNegative | frontend/src/context/PortfolioContext.jsx:125 | the total of non-negative values is non-negative |
| Holdings.Reallocate | frontend/src/context/PortfolioContext.jsx:125-131 | the recompute changes only allocations, and keeps the length and order |
| Holdings.AllocationsSumTo100 | frontend/src/context/PortfolioContext.jsx:125-129 | with a positive total, the allocations add up to exactly 100 |
| Holdings.AllocationsZeroWithoutValue | frontend/src/context/PortfolioContext.jsx:129 | with a total of 0 or less, every allocation is 0 |
| Holdings.AllocationBounds | frontend/src/context/PortfolioContext.jsx:129 | with non-negative values, every allocation lies in [0, 100] |
| Holdings.ReallocateIdempotent | frontend/src/context/PortfolioContext.jsx:123-133 | recomputing twice is recomputing once, so the effect's re-run on its own update changes nothing |
| Holdings.DeleteHolding | frontend/src/context/PortfolioContext.jsx:137 | the delete updater keeps the holdings whose id differs from the given one; its properties are stated by DeleteHoldingSpec and DeleteHoldingNoOp |
| Holdings.DeleteHoldingSpec | frontend/src/context/PortfolioContext.jsx:137 | after a delete no holding has the id, every other holding is still there in order and as often as before, and nothing is added |
| Holdings.DeleteHoldingNoOp | frontend/src/context/PortfolioContext.jsx:137 | deleting an absent id is a no-op, and deleting twice is deleting once |
| Holdings.DeleteCommutesWithSnapshot | frontend/src/context/PortfolioContext.jsx:137 | a delete and a price merge commute |
| Holdings.AsWrittenNewValue | frontend/src/context/PortfolioContext.jsx:150 | as written, the new holding's value is a number only for an unquoted symbol (0); for a quoted symbol it is NaN |
| Holdings.AsWrittenNewValueIsNaN | frontend/src/context/PortfolioContext.jsx:150 | adding 1 BTC while BTC is quoted at 50000 gives NaN as written, and 50000 with the corrected value |
| Holdings.NewValue | frontend/src/context/PortfolioContext.jsx:150 | the corrected value is amount × quoted price; it agrees with the source wherever the source yields a number |
| Holdings.AddHolding | frontend/src/context/PortfolioContext.jsx:146-154 | add appends exactly one holding, with change and allocation 0, and leaves earlier holdings untouched; an unquoted symbol gets value 0 |
| Holdings.AddThenDelete | frontend/src/context/PortfolioContext.jsx:135-160 | deleting the id just added restores the list, when that id was not already in use |
| Holdings.PortfolioStore.constructor | frontend/src/context/PortfolioContext.jsx:32-34 | the store starts with no holdings, no prices and `loading` set |
| Holdings.PortfolioStore.RecomputeAllocations | frontend/src/context/PortfolioContext.jsx:123-133 | the effect replaces the holdings by their recompute and leaves them settled |
| Holdings.PortfolioStore.LoadSeed | frontend/src/context/PortfolioContext.jsx:64-73 | after the first load step the holdings are the seed list, which is already settled |
| Holdings.PortfolioStore.FinishInitialLoad | frontend/src/context/PortfolioContext.jsx:90-107 | the startup merge, then the recompute; `loading` is cleared |
| Holdings.PortfolioStore.OnPriceMessage | frontend/src/context/PortfolioContext.jsx:38-58 | the message becomes `prices` and is merged into the holdings, then the recompute |
| Holdings.PortfolioStore.Delete | frontend/src/context/PortfolioContext.jsx:135-142 | the delete, then the recompute; prices and `loading` are unchanged |
| Holdings.PortfolioStore.Add | frontend/src/context/PortfolioContext.jsx:144-160 | the append with the corrected value, then the recompute |
| Holdings.SeedIsSettled | frontend/src/context/PortfolioContext.jsx:123-133 | the recompute leaves the zero-valued seed list unchanged |
| Analytics.PerformanceRows | frontend/src/pages/Analytics.jsx:131-137 | one performance row per holding |
| Analytics.PerformanceRowAt | frontend/src/pages/Analytics.jsx:128-137 | each row copies the symbol and defaults a missing value or change to 0; performance = change; allocation is value / total × 100, or 0 when the total is not positive |
| Analytics.RowAllocationsSumTo100 | frontend/src/pages/Analytics.jsx:128-135 | with a positive total, the rows' allocations add up to 100 |
| Analytics.ViewTotalOfStore | frontend/src/pages/Analytics.jsx:128 | the page's total equals the store's total value |
| Analytics.RowsAgreeWithStore | frontend/src/pages/Analytics.jsx:131-137 | on the store's holdings, the page recomputes the store's allocations and reports each change as the performance |
| Analytics.Returns | frontend/src/pages/Analytics.jsx:11 | the returns are the rows' performances, in order |
| Analytics.Mean | frontend/src/pages/Analytics.jsx:12 | the mean return, the sum over the count; its properties are stated by MeanBetween and MeanOfConstant |
| Analytics.MeanBetween | frontend/src/pages/Analytics.jsx:12 | the mean lies between the smallest and the largest return |
| Analytics.MeanOfConstant | frontend/src/pages/Analytics.jsx:12 | the mean of equal returns is that return |
| Analytics.Variance | frontend/src/pages/Analytics.jsx:13 | the mean squared deviation from the mean; its properties are stated by VarianceSpec |
| Analytics.VarianceSpec | frontend/src/pages/Analytics.jsx:13 | the variance is at least 0, and it is 0 exactly when all returns are equal |
| Analytics.PeakIsRunningMax | frontend/src/pages/Analytics.jsx:21-27 | the peak is at least 0, not below any cumulative sum so far, and is 0 or one of those sums |
| Analytics.MaxDrawdownAfter | frontend/src/pages/Analytics.jsx:21-30 | the maximum drawdown after the first k returns, with JavaScript's comparison and its NaN and infinities; its properties are stated by MaxIsLargest, MaxIsAttained, DrawdownNonNegative and InfiniteDrawdown |
| Analytics.MaxDrawdown | frontend/src/pages/Analytics.jsx:21-30 | the drawdown loop computes the maximum drawdown over all returns |
| Analytics.MaxIsLargest | frontend/src/pages/Analytics.jsx:25-30 | the maximum drawdown is at least every step's drawdown: +Infinity when some step's is, otherwise no smaller than any finite one |
| Analytics.MaxIsAttained | frontend/src/pages/Analytics.jsx:21-30 | the maximum drawdown is the initial 0 or the drawdown of one of the steps |
| Analytics.NoDrawdownWithoutLosses | frontend/src/pages/Analytics.jsx:21-30 | with no negative return, the cumulative sum is its own peak and the maximum drawdown stays 0 |
| Analytics.DrawdownNonNegative | frontend/src/pages/Analytics.jsx:25-30 | the maximum drawdown is never negative, NaN or -Infinity |
| Analytics.InfiniteDrawdown | frontend/src/pages/Analytics.jsx:28-29 | the maximum drawdown is +Infinity exactly when a cumulative sum goes negative while the peak is still 0 |
| Analytics.PatternsInRange | frontend/src/pages/Analytics.jsx:46-84 | every predefined correlation lies in [0.25, 0.72], so none is a falsy 0 |
| Analytics.PatternLookup | frontend/src/pages/Analytics.jsx:92 | the lookup gives the `a-b` value when it is present and non-zero, otherwise the `b-a` value when present, otherwise nothing |
| Analytics.FallbackCorrelation | frontend/src/pages/Analytics.jsx:94-99 | the fallback lies in [0.10, 0.80], and is the unclamped formula whenever that is at most 0.80 |
| Analytics.CorrelationEntrySpec | frontend/src/pages/Analytics.jsx:88-105 | the entry for (i, j) is labelled `symbols[i]-symbols[j]`, carries the lookup's value (or the fallback when there is none), and is labelled by the strength of its value |
| Analytics.EntryInRange | frontend/src/pages/Analytics.jsx:92-99 | with the page's table, every entry lies in [0.10, 0.80] |
| Analytics.RowPairsSpec | frontend/src/pages/Analytics.jsx:87 | the inner loop visits every j with i < j < n, in increasing order |
| Analytics.PairsBeforeMembers | frontend/src/pages/Analytics.jsx:86-87 | the nested loops visit exactly the pairs i < j < n |
| Analytics.PairsBeforeOrdered | frontend/src/pages/Analytics.jsx:86-87 | the nested loops visit the pairs in increasing lexicographic order, each once |
| Analytics.PairsBeforeCount | frontend/src/pages/Analytics.jsx:86-87 | the nested loops visit n(n-1)/2 pairs |
| Analytics.CalculateCorrelations | frontend/src/pages/Analytics.jsx:86-109 | the loops push exactly the candidate list; the result is its stable sort by strength, cut to ten |
| Analytics.CorrelationRow | frontend/src/pages/Analytics.jsx:87-106 | the inner loop pushes the entries for (i, i+1), ..., (i, n-1) |
| Analytics.CandidatesCount | frontend/src/pages/Analytics.jsx:86-107 | there is one candidate per index pair: n(n-1)/2 of them |
| Analytics.CandidatesCover | frontend/src/pages/Analytics.jsx:86-105 | every pair i < j has its entry among the candidates |
| Analytics.CandidatesOnly | frontend/src/pages/Analytics.jsx:86-105 | every candidate is the entry of some pair i < j |
| Analytics.CorrelationTable | frontend/src/pages/Analytics.jsx:109 | the candidates sorted by decreasing abs(correlation) and cut to ten; its properties are stated by CorrelationTableSpec |
| Analytics.CorrelationTableSpec | frontend/src/pages/Analytics.jsx:101-109 | the table has min(10, n(n-1)/2) entries in non-increasing order of abs(correlation); each entry is a candidate with the strength label of its value; no candidate is kept more often than it occurs; no candidate left out is stronger than a kept one |
| Analytics.CorrelationTableRange | frontend/src/pages/Analytics.jsx:92-109 | with the page's table, every reported correlation lies in [0.10, 0.80] |
| Analytics.HerfindahlIndex | frontend/src/pages/Analytics.jsx:113-114 | the sum of the squared allocation percentages; its properties are stated by DiversificationOf and AlwaysHighConcentration |
| Analytics.ConcentrationOf | frontend/src/pages/Analytics.jsx:120 | the label: High above 0.25, Medium above 0.15, Low otherwise |
| Analytics.DiversificationOf | frontend/src/pages/Analytics.jsx:112-122 | the index is at least 0; effective N is +Infinity exactly when the index is 0, and 1 / index otherwise |
| Analytics.AlwaysHighConcentration | frontend/src/pages/Analytics.jsx:113-120 | with a positive total and fewer than 40000 holdings, n × index ≥ 10000, so concentration is always 'High' |
| Analytics.TwoEqualHoldings | frontend/src/pages/Analytics.jsx:114 | two holdings of equal value have allocation 50 each and an index of 5000 |
| Analytics.TopPerformers | frontend/src/pages/Analytics.jsx:149-151 | the rows by decreasing performance, cut to five; its properties are stated by TopPerformersSpec |
| Analytics.TopLosers | frontend/src/pages/Analytics.jsx:153-155 | the rows by increasing performance, cut to five; its properties are stated by TopLosersSpec |
| Analytics.TopPerformersSpec | frontend/src/pages/Analytics.jsx:149-151 | the top performers are min(5, n) rows of the input, none more often than it occurs, in non-increasing order of performance; no row left out performs better |
| Analytics.TopLosersSpec | frontend/src/pages/Analytics.jsx:153-155 | the top losers are min(5, n) rows of the input, none more often than it occurs, in non-decreasing order of performance; no row left out performs worse |
| Analytics.RiskMetricsOf | frontend/src/pages/Analytics.jsx:10-37 | the mean, the variance and the maximum drawdown in percent of the rows' returns |
| Analytics.Analyze | frontend/src/pages/Analytics.jsx:125-166 | there is no analysis exactly when there are no holdings; otherwise the total, one row per holding, min(5, n) top performers and losers, and min(10, n(n-1)/2) correlations |
| Search.Lower | frontend/src/pages/Portfolio.jsx:65 | lower-casing maps every character, and keeps the length |
| Search.LowerIdempotent | frontend/src/pages/Portfolio.jsx:65 | lower-casing twice is lower-casing once, and it forgets an earlier upper-casing |
| Search.IncludesSpec | frontend/src/pages/Portfolio.jsx:65 | `includes` holds exactly when the term occurs at some position |
| Search.IncludesTrivia | frontend/src/pages/Portfolio.jsx:65 | the empty term occurs in every string, and a string contains itself |
| Search.IncludesPrefix | frontend/src/pages/Portfolio.jsx:65 | a string that contains t + u contains t |
| Search.FilterBySearch | frontend/src/pages/Portfolio.jsx:64-66 | the holdings whose folded symbol includes the folded term; its properties are stated by SearchSpec and the lemmas after it |
| Search.SearchSpec | frontend/src/pages/Portfolio.jsx:64-66 | a holding is listed exactly when it is held and its lower-cased symbol contains the lower-cased term, as often as it is held; the list is a subsequence of the holdings |
| Search.EmptySearchListsAll | frontend/src/pages/Portfolio.jsx:64-66 | an empty term lists every holding |
| Search.SearchIgnoresCase | frontend/src/pages/Portfolio.jsx:64-66 | terms differing only in ASCII case list the same holdings |
| Search.SearchNarrows | frontend/src/pages/Portfolio.jsx:64-66 | extending the term never adds a holding |
| Wallets.AsWrittenSynced | frontend/src/pages/WalletSync.jsx:27-34 | the sync as written: one Ethereum wallet appended with id count + 1; its properties are stated by AsWrittenKeepsConsecutive and AsWrittenReusesId |
| Wallets.AsWrittenKeepsConsecutive | frontend/src/pages/WalletSync.jsx:27-34 | as written, without removals, the ids stay 1..n and distinct |
| Wallets.AsWrittenReusesId | frontend/src/pages/WalletSync.jsx:19-47 | as written, sync then remove wallet 1 then sync gives two wallets with id 2, and removing id 2 then drops both |
| Wallets.MaxId | frontend/src/pages/WalletSync.jsx:28 | the id bound is at least 0 and at least every id in the list |
| Wallets.Synced | frontend/src/pages/WalletSync.jsx:27-34 | a sync appends exactly one 'Ethereum' wallet for the address at the end, and leaves earlier wallets unchanged |
| Wallets.SyncedKeepsIdsDistinct | frontend/src/pages/WalletSync.jsx:28 | the corrected id differs from every id in the list, so a sync keeps ids distinct |
| Wallets.NextIdOnConsecutive | frontend/src/pages/WalletSync.jsx:28 | on a list numbered 1..n, the corrected id is count + 1, exactly as the source computes |
| Wallets.Removed | frontend/src/pages/WalletSync.jsx:45 | the wallets whose id differs from the given one; its properties are stated by RemovedSpec |
| Wallets.RemovedSpec | frontend/src/pages/WalletSync.jsx:44-47 | remove drops every wallet with the id and keeps the others in order and as often as before; an absent id changes nothing; distinct ids stay distinct |
| Wallets.SyncThenRemove | frontend/src/pages/WalletSync.jsx:19-47 | removing the wallet just synced restores the list |
| Wallets.WalletSyncPage.constructor | frontend/src/pages/WalletSync.jsx:8-17 | the page starts with the one built-in wallet, an empty address and not busy |
| Wallets.WalletSyncPage.SetAddress | frontend/src/pages/WalletSync.jsx:69 | typing replaces the address and nothing else |
| Wallets.WalletSyncPage.Submit | frontend/src/pages/WalletSync.jsx:19-42 | an empty address (blocked by `required`, line 70) changes nothing; otherwise one wallet is appended, the address is cleared, the page ends not busy, and ids stay distinct |
| Wallets.WalletSyncPage.Remove | frontend/src/pages/WalletSync.jsx:44-47 | the list becomes its filter by id; ids stay distinct; the address is kept |
| Forecast.DailyChanges | backend/services/binance_service.py:64-69 | there are len(closes) - 1 changes, and change i is (close[i+1] - close[i]) / close[i] × 100 |
| Forecast.Get7DayForecast | backend/services/binance_service.py:58-88 | the procedure's result is the forecast of the closes, or `ZeroDivisionError` |
| Forecast.CollectedChanges | backend/services/binance_service.py:64-71 | the changes the loop collects are the daily changes, and their quotient by the count is the average |
| Forecast.CompoundForward | backend/services/binance_service.py:75-82 | the compounding loop produces, for day k = 1..7, the last close × growth^k |
| Forecast.CompoundStep | backend/services/binance_service.py:77-79 | one loop step multiplies the price by the factor and appends the next day's entry |
| Forecast.ForecastOf | backend/services/binance_service.py:58-88 | the forecast for the closes, or the ZeroDivisionError the function raises; its properties are stated by ForecastErrorCases, ForecastShape and ForecastIsCompounded |
| Forecast.CompoundedPrices | backend/services/binance_service.py:75-82 | seven entries, day k + 1 priced last × growth^(k + 1); its properties are stated by CompoundedShape and the lemmas after it |
| Forecast.ForecastErrorCases | backend/services/binance_service.py:64-71 | the forecast fails exactly when there are fewer than two closes or a previous close is 0 |
| Forecast.CompoundedShape | backend/services/binance_service.py:76-82 | seven entries, entry k is k + 1 days ahead, the first price is last × factor, and each later price is the previous × factor |
| Forecast.CompoundedSign | backend/services/binance_service.py:78 | with a non-negative last close and factor every price is non-negative, and positive when both are positive |
| Forecast.CompoundedTrend | backend/services/binance_service.py:78 | a factor of at least 1 never lowers the price; a factor in [0, 1] never raises it |
| Forecast.CompoundedFlat | backend/services/binance_service.py:78 | a factor of 1 repeats the last close |
| Forecast.ForecastShape | backend/services/binance_service.py:72-87 | a forecast carries the symbol, the last close as current price, and seven entries compounding the last close by 1 + avg / 100 |
| Forecast.ForecastIsCompounded | backend/services/binance_service.py:72-87 | a successful forecast had at least two closes and no zero previous close, and is the compounding of the last close by the average change |
| Forecast.ForecastTrend | backend/services/binance_service.py:76-82 | with a non-negative last close: avg ≥ 0 gives non-decreasing prices, and -100 ≤ avg ≤ 0 gives non-increasing prices |
| Forecast.PositiveClosesGivePositiveForecast | backend/services/binance_service.py:64-82 | with at least two closes, all positive, the forecast succeeds, the average is above -100, and every price is positive |
| Forecast.AverageAboveMinus100 | backend/services/binance_service.py:64-71 | positive closes have no zero previous close and an average change above -100 |
| Forecast.ChangeAboveMinus100 | backend/services/binance_service.py:68 | between two positive closes the change is above -100 percent |
| Forecast.FlatHistoryFlatForecast | backend/services/binance_service.py:64-82 | a history of one repeated non-zero close forecasts that same price on every day |

## Left out

- Volatility and Sharpe ratio (frontend/src/pages/Analytics.jsx:14-18): they
  need a square root of a real. `RiskMetrics` keeps the mean, the variance and
  the maximum drawdown.
- Rounding and formatting: `toFixed`, `toLocaleString` and Python's
  `round(…, 2)` are not modelled; the model keeps exact values.
- Correlations are exact hundredths. The source sorts by the parsed
  `toFixed(2)` string, which equals those hundredths. It labels strength from
  the unrounded double, whose sum 0.4 + 0.02·k + 0.1 may sit a rounding error
  away from 0.7 or 0.4. The model labels from the exact value.
- Floating point: reals stand for IEEE doubles. The exceptions are NaN and
  ±Infinity, which are modelled (`JsNumber`) where the drawdown divides by a
  zero peak and where effective N divides by a zero index.
- Holdings.Quote, Holdings.PriceResult: `price` and `change24h` are reals.
  The backend forwards the exchange's `price` and `priceChangePercent`
  unconverted (backend/main.py:66-68 and :125-127), so both reach the page as
  decimal strings. `amount * price` coerces the price to a number
  (frontend/src/context/PortfolioContext.jsx:53), but `change24h` stays a
  string in the holding (:54 and :82), and a non-empty string survives
  `|| 0` (frontend/src/pages/Analytics.jsx:134-136). The model treats every
  feed field as the number it spells; JavaScript's string `+` is not modelled.
- Analytics.MeanBetween, Analytics.VarianceSpec, Analytics.MaxDrawdown: these
  hold for numeric returns only. With the string-valued changes above,
  `sum + ret` (frontend/src/pages/Analytics.jsx:12) and `cumulative += ret`
  (:26) concatenate strings, and the page's mean, variance and drawdown are
  then NaN or unrelated numbers.
- Analytics.Mean: requires at least one return, because the page returns
  `null` before computing risk metrics for an empty portfolio.
- Search.Lower: case mapping covers the ASCII letters only, not the full
  Unicode mapping of `toLowerCase`.
- Network and streaming: these are not modelled:
  - the REST and WebSocket clients;
  - the HTTP fetch of the historical candles (the forecast receives the
    closes, column 4 already converted to numbers);
  - the backend endpoints and its connection manager.
- Clock readings are taken as parameters. These are `Date.now()` (a new
  holding's id), `new Date().toISOString()` (a wallet's sync time) and
  `datetime.now()` (the forecast dates, which become `daysAhead`).
- Toasts, console logging and the `try/catch` blocks around updaters that
  cannot throw are not modelled.
- React scheduling:
  - the allocation effect is one application after each change, not a
    re-triggering effect (`Holdings.ReallocateIdempotent` shows the re-runs
    change nothing);
  - the simulated one-second wait in the wallet submit is not modelled;
  - the stale `syncedWallets` closure across that wait is not modelled, and
    `Submit` is atomic;
  - the render-time sort of the analytics page is view code.
- Wallets.WalletSyncPage.Submit: appends with the corrected fresh id
  (`Wallets.Synced`), not `count + 1` (see Findings).
- Holdings.PortfolioStore.Add: uses the corrected value `amount × price`, not
  the NaN the source computes for a quoted symbol (see Findings).
- Holdings.PortfolioStore.Add: takes `amount` as a number; the add form passes
  it as a string, and that form is not part of this model.
- Persistence: the portfolio page's save and load calls have no
  implementation in the provider; the backend models are a schema with no
  logic.
- Analytics.CalculateCorrelations: takes the pattern table as a parameter;
  `Analytics.Analyze` passes the page's own table `CorrelationPatterns`.

## Findings

| source | as written | input that shows it | evidently intended | confidence | as-written member | corrected member |
|---|---|---|---|---|---|---|
| frontend/src/context/PortfolioContext.jsx:150 | `coinData.amount * (prices[symbol] \|\| 0)`: `prices` maps a symbol to a `{price, change_24h}` record, so a quoted symbol multiplies a number by an object | add 1 BTC while the last message quoted BTC at 50000: the value is NaN | amount × the quoted price, 0 for an unquoted symbol | not executed | Holdings.AsWrittenNewValueIsNaN | Holdings.NewValue |
| frontend/src/pages/WalletSync.jsx:28 | the new wallet's id is `syncedWallets.length + 1` | sync "0xA" (ids 1, 2), remove wallet 1, sync "0xB": both wallets have id 2, and removing id 2 drops both | an id not already in the list, e.g. the largest id + 1 | not executed | Wallets.AsWrittenReusesId | Wallets.SyncedKeepsIdsDistinct |
