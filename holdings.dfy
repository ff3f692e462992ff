/** The holdings store of the portfolio provider
    (frontend/src/context/PortfolioContext.jsx): the holding records, the
    built-in seed list, the merge of a streamed price message, the merge of the
    startup price lookups, the allocation recompute, delete and add. Each
    `setHoldings(prev => ...)` updater is a function here; the provider's state
    is the class `PortfolioStore` at the end of the file. */
module Holdings {
  import opened Basics

  /** One portfolio position. `id` is a number in the source (an index for
      seed rows, `Date.now()` for added rows). */
  datatype Holding = Holding(
    id: int,
    symbol: string,
    amount: real,
    value: real,
    change24h: real,
    allocation: real)

  /** One entry of a streamed price message, `{price, change_24h}`. */
  datatype Quote = Quote(price: real, change24h: real)

  /** A successful startup lookup, `{symbol, price, change24h}`; a failed one is
      `null` in the source and `None` here. */
  datatype PriceResult = PriceResult(symbol: string, price: real, change24h: real)

  /** The default table of the source, in declaration order (which is the
      order `Object.entries` yields for non-numeric keys). */
  const DefaultAmounts: seq<(string, real)> := [
    ("BTC", 0.5), ("ETH", 3.2), ("BNB", 15.0), ("SOL", 25.0), ("ADA", 1000.0),
    ("DOT", 50.0), ("AVAX", 20.0), ("MATIC", 500.0), ("LINK", 100.0), ("UNI", 75.0),
    ("XRP", 2000.0), ("DOGE", 5000.0), ("SHIB", 1000000.0), ("LTC", 10.0), ("ATOM", 30.0),
    ("NEAR", 100.0), ("ALGO", 500.0), ("VET", 2000.0), ("MANA", 1000.0), ("SAND", 500.0)
  ]

  /** The seed list: one zero-valued holding per table entry, id = position + 1. */
  function Seed(): (r: seq<Holding>)
    ensures |r| == |DefaultAmounts| == 20
  {
    seq(|DefaultAmounts|, i requires 0 <= i < |DefaultAmounts| =>
      Holding(i + 1, DefaultAmounts[i].0, DefaultAmounts[i].1, 0.0, 0.0, 0.0))
  }

  predicate DistinctSymbols(hs: seq<Holding>)
  {
    forall i, j :: 0 <= i < j < |hs| ==> hs[i].symbol != hs[j].symbol
  }

  predicate DistinctIds(hs: seq<Holding>)
  {
    forall i, j :: 0 <= i < j < |hs| ==> hs[i].id != hs[j].id
  }

  /** The seed follows the table entry by entry, numbers its rows 1..20 and
      starts every derived field at 0. */
  lemma SeedRows(i: int)
    requires 0 <= i < 20
    ensures Seed()[i] == Holding(i + 1, DefaultAmounts[i].0, DefaultAmounts[i].1, 0.0, 0.0, 0.0)
    ensures Seed()[i].value == 0.0 && Seed()[i].change24h == 0.0 && Seed()[i].allocation == 0.0
  {
  }

  /** The position of a symbol in the default table, or -1. */
  function TablePosition(symbol: string): (r: int)
    ensures -1 <= r < 20
  {
    if symbol == "BTC" then 0
    else if symbol == "ETH" then 1
    else if symbol == "BNB" then 2
    else if symbol == "SOL" then 3
    else if symbol == "ADA" then 4
    else if symbol == "DOT" then 5
    else if symbol == "AVAX" then 6
    else if symbol == "MATIC" then 7
    else if symbol == "LINK" then 8
    else if symbol == "UNI" then 9
    else if symbol == "XRP" then 10
    else if symbol == "DOGE" then 11
    else if symbol == "SHIB" then 12
    else if symbol == "LTC" then 13
    else if symbol == "ATOM" then 14
    else if symbol == "NEAR" then 15
    else if symbol == "ALGO" then 16
    else if symbol == "VET" then 17
    else if symbol == "MANA" then 18
    else if symbol == "SAND" then 19
    else -1
  }

  lemma TablePositions()
    ensures forall i :: 0 <= i < 20 ==> TablePosition(DefaultAmounts[i].0) == i
  {
  }

  /** The seed has no repeated id and no repeated symbol. */
  lemma SeedDistinct()
    ensures DistinctIds(Seed())
    ensures DistinctSymbols(Seed())
  {
    TablePositions();
    forall i, j | 0 <= i < j < 20 ensures Seed()[i].symbol != Seed()[j].symbol {
      assert TablePosition(Seed()[i].symbol) == i;
      assert TablePosition(Seed()[j].symbol) == j;
    }
  }

  // ---------------------------------------------------------------------------
  // Price merges

  /** The record for `h` after a quote: value = amount × price, change copied. */
  function Priced(h: Holding, price: real, change24h: real): Holding
  {
    h.(value := h.amount * price, change24h := change24h)
  }

  /** The WebSocket updater: every holding whose symbol has an entry in the
      message gets that entry's price and change; the others are returned as
      they are. (`!priceData` in the source is true exactly for a missing
      entry, since an entry is a record.) */
  function ApplySnapshot(hs: seq<Holding>, snapshot: map<string, Quote>): (r: seq<Holding>)
    ensures |r| == |hs|
    ensures forall i :: 0 <= i < |hs| ==>
      && r[i].id == hs[i].id && r[i].symbol == hs[i].symbol
      && r[i].amount == hs[i].amount && r[i].allocation == hs[i].allocation
  {
    seq(|hs|, i requires 0 <= i < |hs| =>
      if hs[i].symbol in snapshot
      then Priced(hs[i], snapshot[hs[i].symbol].price, snapshot[hs[i].symbol].change24h)
      else hs[i])
  }

  /** What the merge does to one holding: a quoted holding is revalued from its
      (unchanged) amount, an unquoted one is left exactly as it was. */
  lemma ApplySnapshotEffect(hs: seq<Holding>, snapshot: map<string, Quote>, i: int)
    requires 0 <= i < |hs|
    ensures hs[i].symbol in snapshot ==>
      && ApplySnapshot(hs, snapshot)[i].value == hs[i].amount * snapshot[hs[i].symbol].price
      && ApplySnapshot(hs, snapshot)[i].change24h == snapshot[hs[i].symbol].change24h
    ensures hs[i].symbol !in snapshot ==> ApplySnapshot(hs, snapshot)[i] == hs[i]
  {
  }

  /** Two messages in a row act as one message holding both, the later
      winning where both quote a symbol. */
  lemma ApplySnapshotCompose(hs: seq<Holding>, s1: map<string, Quote>, s2: map<string, Quote>)
    ensures ApplySnapshot(ApplySnapshot(hs, s1), s2) == ApplySnapshot(hs, s1 + s2)
  {
    var once := ApplySnapshot(hs, s1);
    forall i | 0 <= i < |hs|
      ensures ApplySnapshot(once, s2)[i] == ApplySnapshot(hs, s1 + s2)[i]
    {
      var sym := hs[i].symbol;
      if sym in s2 {
        assert (s1 + s2)[sym] == s2[sym];
      } else if sym in s1 {
        assert (s1 + s2)[sym] == s1[sym];
      }
    }
  }

  /** Applying the same message twice is applying it once. */
  lemma ApplySnapshotIdempotent(hs: seq<Holding>, snapshot: map<string, Quote>)
    ensures ApplySnapshot(ApplySnapshot(hs, snapshot), snapshot) == ApplySnapshot(hs, snapshot)
  {
    ApplySnapshotCompose(hs, snapshot, snapshot);
    assert snapshot + snapshot == snapshot;
  }

  /** A message with no quotes leaves the holdings as they are. */
  lemma ApplyEmptySnapshot(hs: seq<Holding>)
    ensures ApplySnapshot(hs, map[]) == hs
  {
  }

  /** `validPrices.find(p => p.symbol === symbol)`: the first successful lookup
      for the symbol. */
  function FindPrice(ps: seq<PriceResult>, symbol: string): (r: Option<PriceResult>)
    ensures r.None? <==> forall k :: 0 <= k < |ps| ==> ps[k].symbol != symbol
    ensures r.Some? ==> exists k :: (0 <= k < |ps| && ps[k] == r.value && ps[k].symbol == symbol
      && forall m :: 0 <= m < k ==> ps[m].symbol != symbol)
  {
    if ps == [] then None
    else if ps[0].symbol == symbol then Some(ps[0])
    else
      var r := FindPrice(ps[1..], symbol);
      if r.Some? then
        var k :| (0 <= k < |ps[1..]| && ps[1..][k] == r.value && ps[1..][k].symbol == symbol
          && forall m :: 0 <= m < k ==> ps[1..][m].symbol != symbol);
        assert ps[k + 1] == r.value && forall m :: 0 <= m < k + 1 ==> ps[m].symbol != symbol;
        r
      else r
  }

  /** `priceResults.filter(result => result !== null)`. */
  function ValidPrices(results: seq<Option<PriceResult>>): (r: seq<PriceResult>)
    ensures forall p :: p in r <==> Some(p) in results
  {
    if results == [] then []
    else if results[0].Some? then [results[0].value] + ValidPrices(results[1..])
    else ValidPrices(results[1..])
  }

  /** The filter keeps the order and the repeats of the successful results:
      filtering a concatenation concatenates the filtered parts. */
  lemma {:induction false} ValidPricesAppend(a: seq<Option<PriceResult>>, b: seq<Option<PriceResult>>)
    ensures ValidPrices(a + b) == ValidPrices(a) + ValidPrices(b)
  {
    if a == [] {
      assert a + b == b;
    } else {
      var ab := a + b;
      assert ab[0] == a[0] && ab[1..] == a[1..] + b;
      ValidPricesAppend(a[1..], b);
      if a[0].Some? {
        calc {
          ValidPrices(ab);
          [a[0].value] + ValidPrices(a[1..] + b);
          [a[0].value] + (ValidPrices(a[1..]) + ValidPrices(b));
          ([a[0].value] + ValidPrices(a[1..])) + ValidPrices(b);
        }
      }
    }
  }

  /** Looking a symbol up among the kept results finds the first successful
      result with that symbol, in the order the lookups were issued, and
      finds nothing exactly when no successful result has it. */
  lemma {:induction false} FindFirstSuccess(results: seq<Option<PriceResult>>, symbol: string)
    ensures FindPrice(ValidPrices(results), symbol).None? <==>
      forall k :: 0 <= k < |results| ==> results[k].None? || results[k].value.symbol != symbol
    ensures FindPrice(ValidPrices(results), symbol).Some? ==>
      exists k :: 0 <= k < |results| && results[k] == FindPrice(ValidPrices(results), symbol)
        && results[k].value.symbol == symbol
        && forall m :: 0 <= m < k ==> results[m].None? || results[m].value.symbol != symbol
  {
    if results != [] {
      var tail := results[1..];
      FindFirstSuccess(tail, symbol);
      var r := FindPrice(ValidPrices(results), symbol);
      if results[0].Some? && results[0].value.symbol == symbol {
        assert ValidPrices(results)[0] == results[0].value;
        assert results[0] == r;
      } else {
        if results[0].Some? {
          assert ValidPrices(results)[1..] == ValidPrices(tail);
        }
        assert r == FindPrice(ValidPrices(tail), symbol);
        if r.Some? {
          var k :| 0 <= k < |tail| && tail[k] == r && tail[k].value.symbol == symbol
            && forall m :: 0 <= m < k ==> tail[m].None? || tail[m].value.symbol != symbol;
          assert results[k + 1] == r;
          assert forall m :: 0 <= m < k + 1 ==> results[m].None? || results[m].value.symbol != symbol;
        } else {
          assert forall k :: 0 <= k < |results| ==> results[k].None? || results[k].value.symbol != symbol by {
            forall k | 0 < k < |results| ensures results[k].None? || results[k].value.symbol != symbol {
              assert results[k] == tail[k - 1];
            }
          }
        }
      }
    }
  }

  /** The startup updater: each holding takes the first successful lookup for
      its symbol, if there is one, and is otherwise returned as it is. */
  function ApplyInitialPrices(hs: seq<Holding>, results: seq<Option<PriceResult>>): (r: seq<Holding>)
    ensures |r| == |hs|
    ensures forall i :: 0 <= i < |hs| ==>
      && r[i].id == hs[i].id && r[i].symbol == hs[i].symbol
      && r[i].amount == hs[i].amount && r[i].allocation == hs[i].allocation
  {
    var valid := ValidPrices(results);
    seq(|hs|, i requires 0 <= i < |hs| =>
      match FindPrice(valid, hs[i].symbol)
      case Some(p) => Priced(hs[i], p.price, p.change24h)
      case None => hs[i])
  }

  /** The lookups are issued one per holding, in holding order, so each
      result is either a failure or carries the symbol of its holding. */
  predicate AlignedResults(hs: seq<Holding>, results: seq<Option<PriceResult>>)
  {
    |results| == |hs| &&
    forall i :: 0 <= i < |hs| ==> results[i].None? || results[i].value.symbol == hs[i].symbol
  }

  /** With one lookup per holding and no repeated symbol, a holding is priced
      by its own lookup when that succeeded, and keeps its value and change
      when it failed. */
  lemma InitialPricesPerHolding(hs: seq<Holding>, results: seq<Option<PriceResult>>, i: int)
    requires DistinctSymbols(hs) && AlignedResults(hs, results)
    requires 0 <= i < |hs|
    ensures results[i].Some? ==>
      && ApplyInitialPrices(hs, results)[i].value == hs[i].amount * results[i].value.price
      && ApplyInitialPrices(hs, results)[i].change24h == results[i].value.change24h
    ensures results[i].None? ==> ApplyInitialPrices(hs, results)[i] == hs[i]
  {
    var valid := ValidPrices(results);
    var sym := hs[i].symbol;
    // Every successful lookup with this symbol is the i-th one.
    forall p | p in valid && p.symbol == sym ensures Some(p) == results[i] {
      var j :| 0 <= j < |results| && results[j] == Some(p);
      assert results[j].value.symbol == hs[j].symbol;
      if j < i {
        assert false;
      } else if j > i {
        assert false;
      }
    }
  }

  /** On the seed list, a holding whose lookup failed still shows value 0 and
      change 0 after the startup merge. */
  lemma FailedLookupKeepsZero(results: seq<Option<PriceResult>>, i: int)
    requires AlignedResults(Seed(), results)
    requires 0 <= i < 20 && results[i].None?
    ensures ApplyInitialPrices(Seed(), results)[i].value == 0.0
    ensures ApplyInitialPrices(Seed(), results)[i].change24h == 0.0
  {
    SeedDistinct();
    InitialPricesPerHolding(Seed(), results, i);
  }

  // ---------------------------------------------------------------------------
  // Allocation

  /** `holdings.reduce((sum, h) => sum + h.value, 0)`. */
  function TotalValue(hs: seq<Holding>): real
  {
    if hs == [] then 0.0 else hs[0].value + TotalValue(hs[1..])
  }

  /** The total of non-negative values is non-negative. */
  lemma {:induction false} TotalValueNonNegative(hs: seq<Holding>)
    requires forall k :: 0 <= k < |hs| ==> hs[k].value >= 0.0
    ensures TotalValue(hs) >= 0.0
  {
    if hs != [] {
      assert forall k :: 0 <= k < |hs[1..]| ==> hs[1..][k].value == hs[k + 1].value;
      TotalValueNonNegative(hs[1..]);
    }
  }

  /** A holding's share of the total in percent, or 0 when the total is not
      positive. */
  function Share(value: real, total: real): real
  {
    if total > 0.0 then value / total * 100.0 else 0.0
  }

  /** Every holding with its allocation taken against the given total. */
  function WithAllocations(hs: seq<Holding>, total: real): (r: seq<Holding>)
    ensures |r| == |hs|
    ensures forall i :: 0 <= i < |hs| ==> r[i] == hs[i].(allocation := Share(hs[i].value, total))
  {
    seq(|hs|, i requires 0 <= i < |hs| => hs[i].(allocation := Share(hs[i].value, total)))
  }

  /** The allocation effect: recompute every allocation against the current
      total value. Nothing but `allocation` changes. */
  function Reallocate(hs: seq<Holding>): (r: seq<Holding>)
    ensures |r| == |hs|
    ensures forall i :: 0 <= i < |hs| ==>
      && r[i].id == hs[i].id && r[i].symbol == hs[i].symbol && r[i].amount == hs[i].amount
      && r[i].value == hs[i].value && r[i].change24h == hs[i].change24h
  {
    WithAllocations(hs, TotalValue(hs))
  }

  function AllocationSum(hs: seq<Holding>): real
  {
    if hs == [] then 0.0 else hs[0].allocation + AllocationSum(hs[1..])
  }

  lemma {:induction false} AllocationSumScales(hs: seq<Holding>, total: real)
    requires total > 0.0
    ensures AllocationSum(WithAllocations(hs, total)) == TotalValue(hs) / total * 100.0
  {
    if hs != [] {
      var r := WithAllocations(hs, total);
      assert r[1..] == WithAllocations(hs[1..], total);
      AllocationSumScales(hs[1..], total);
      assert r[0].allocation == hs[0].value / total * 100.0;
      assert hs[0].value / total * 100.0 + TotalValue(hs[1..]) / total * 100.0
          == (hs[0].value + TotalValue(hs[1..])) / total * 100.0;
    }
  }

  /** With a positive total the allocations add up to exactly 100 (negative
      values included). */
  lemma AllocationsSumTo100(hs: seq<Holding>)
    requires TotalValue(hs) > 0.0
    ensures AllocationSum(Reallocate(hs)) == 100.0
  {
    var t := TotalValue(hs);
    AllocationSumScales(hs, t);
    assert t / t == 1.0;
  }

  /** With a total of zero (or less) every allocation is zero. */
  lemma AllocationsZeroWithoutValue(hs: seq<Holding>)
    requires TotalValue(hs) <= 0.0
    ensures forall i :: 0 <= i < |hs| ==> Reallocate(hs)[i].allocation == 0.0
  {
  }

  lemma {:induction false} ValueAtMostTotal(hs: seq<Holding>, i: int)
    requires forall k :: 0 <= k < |hs| ==> hs[k].value >= 0.0
    requires 0 <= i < |hs|
    ensures 0.0 <= hs[i].value <= TotalValue(hs)
  {
    NonNegativeTotal(hs[1..]);
    if i > 0 {
      ValueAtMostTotal(hs[1..], i - 1);
    }
  }

  lemma {:induction false} NonNegativeTotal(hs: seq<Holding>)
    requires forall k :: 0 <= k < |hs| ==> hs[k].value >= 0.0
    ensures TotalValue(hs) >= 0.0
  {
    if hs != [] {
      NonNegativeTotal(hs[1..]);
    }
  }

  /** With non-negative values every allocation is a percentage in [0, 100]. */
  lemma AllocationBounds(hs: seq<Holding>, i: int)
    requires forall k :: 0 <= k < |hs| ==> hs[k].value >= 0.0
    requires 0 <= i < |hs|
    ensures 0.0 <= Reallocate(hs)[i].allocation <= 100.0
  {
    ValueAtMostTotal(hs, i);
    var t := TotalValue(hs);
    if t > 0.0 {
      assert hs[i].value / t <= 1.0;
    }
  }

  lemma {:induction false} TotalIgnoresAllocation(hs: seq<Holding>, total: real)
    ensures TotalValue(WithAllocations(hs, total)) == TotalValue(hs)
  {
    if hs != [] {
      assert WithAllocations(hs, total)[1..] == WithAllocations(hs[1..], total);
      TotalIgnoresAllocation(hs[1..], total);
    }
  }

  /** Recomputing twice is recomputing once: the re-run of the effect that
      its own update triggers changes nothing. */
  lemma ReallocateIdempotent(hs: seq<Holding>)
    ensures Reallocate(Reallocate(hs)) == Reallocate(hs)
  {
    TotalIgnoresAllocation(hs, TotalValue(hs));
  }

  // ---------------------------------------------------------------------------
  // Delete and add

  /** `deleteHolding` updater: keep every holding whose id differs. */
  function DeleteHolding(hs: seq<Holding>, id: int): seq<Holding>
  {
    Filter(hs, (h: Holding) => h.id != id)
  }

  /** After a delete no holding has that id, every other holding is still
      there, in its order, and nothing was added. */
  lemma DeleteHoldingSpec(hs: seq<Holding>, id: int)
    ensures forall k :: 0 <= k < |DeleteHolding(hs, id)| ==> DeleteHolding(hs, id)[k].id != id
    ensures forall k :: 0 <= k < |hs| && hs[k].id != id ==> hs[k] in DeleteHolding(hs, id)
    ensures forall h :: h in DeleteHolding(hs, id) ==> h in hs
    ensures IsSubsequence(DeleteHolding(hs, id), hs)
    ensures forall h :: multiset(DeleteHolding(hs, id))[h] == if h.id != id then multiset(hs)[h] else 0
  {
    FilterIsSubsequence(hs, (h: Holding) => h.id != id);
    FilterCounts(hs, (h: Holding) => h.id != id);
  }

  /** Deleting an id no holding has is a no-op, and deleting twice is
      deleting once. */
  lemma DeleteHoldingNoOp(hs: seq<Holding>, id: int)
    ensures (forall k :: 0 <= k < |hs| ==> hs[k].id != id) ==> DeleteHolding(hs, id) == hs
    ensures DeleteHolding(DeleteHolding(hs, id), id) == DeleteHolding(hs, id)
  {
    if forall k :: 0 <= k < |hs| ==> hs[k].id != id {
      FilterKeepsAll(hs, (h: Holding) => h.id != id);
    }
    FilterIdempotent(hs, (h: Holding) => h.id != id);
  }

  /** Delete touches only the rows it removes, so a price merge may be
      applied before or after it. */
  lemma {:induction false} DeleteCommutesWithSnapshot(hs: seq<Holding>, id: int, snapshot: map<string, Quote>)
    ensures DeleteHolding(ApplySnapshot(hs, snapshot), id) == ApplySnapshot(DeleteHolding(hs, id), snapshot)
  {
    if hs != [] {
      var a := ApplySnapshot(hs, snapshot);
      assert a[1..] == ApplySnapshot(hs[1..], snapshot);
      DeleteCommutesWithSnapshot(hs[1..], id, snapshot);
      var rest := DeleteHolding(hs[1..], id);
      if hs[0].id != id {
        assert DeleteHolding(a, id) == [a[0]] + DeleteHolding(a[1..], id);
        assert DeleteHolding(hs, id) == [hs[0]] + rest;
        ApplySnapshotCons(hs[0], rest, snapshot);
        assert ApplySnapshot([hs[0]], snapshot)[0] == a[0];
      } else {
        assert DeleteHolding(a, id) == DeleteHolding(a[1..], id);
        assert DeleteHolding(hs, id) == rest;
      }
    }
  }

  lemma ApplySnapshotCons(h: Holding, t: seq<Holding>, snapshot: map<string, Quote>)
    ensures ApplySnapshot([h] + t, snapshot) == [ApplySnapshot([h], snapshot)[0]] + ApplySnapshot(t, snapshot)
  {
    var l := ApplySnapshot([h] + t, snapshot);
    var r := [ApplySnapshot([h], snapshot)[0]] + ApplySnapshot(t, snapshot);
    forall i | 0 <= i < |l| ensures l[i] == r[i] {
      if i > 0 {
        assert ([h] + t)[i] == t[i - 1];
      }
    }
  }

  /** The value the source computes for a new holding, `amount * (prices[symbol]
      || 0)`. `prices` maps a symbol to a `{price, change_24h}` record, so for
      a symbol the message listed the product is number × object, which is
      NaN (here `None`); only for an unlisted symbol is it a number, 0. */
  function AsWrittenNewValue(amount: real, symbol: string, prices: map<string, Quote>): (r: Option<real>)
    ensures r.Some? <==> symbol !in prices
  {
    if symbol in prices then None else Some(amount * 0.0)
  }

  /** A priced symbol gets no number at all from the source: adding 1 BTC
      while BTC is quoted at 50000 yields NaN instead of 50000. */
  lemma AsWrittenNewValueIsNaN()
    ensures AsWrittenNewValue(1.0, "BTC", map["BTC" := Quote(50000.0, 2.5)]).None?
    ensures NewValue(1.0, "BTC", map["BTC" := Quote(50000.0, 2.5)]) == 50000.0
  {
  }

  /** The value the code evidently means: amount × the quoted price, or 0 for a
      symbol with no quote. */
  function NewValue(amount: real, symbol: string, prices: map<string, Quote>): (r: real)
    ensures symbol in prices ==> r == amount * prices[symbol].price
    ensures AsWrittenNewValue(amount, symbol, prices).Some? ==> r == AsWrittenNewValue(amount, symbol, prices).value
  {
    if symbol in prices then amount * prices[symbol].price else 0.0
  }

  /** `addHolding` updater: the earlier holdings followed by one new holding
      with change and allocation 0. */
  function AddHolding(hs: seq<Holding>, id: int, symbol: string, amount: real, prices: map<string, Quote>): (r: seq<Holding>)
    ensures |r| == |hs| + 1 && r[..|hs|] == hs
    ensures r[|hs|] == Holding(id, symbol, amount, NewValue(amount, symbol, prices), 0.0, 0.0)
    ensures symbol !in prices ==> r[|hs|].value == 0.0
  {
    hs + [Holding(id, symbol, amount, NewValue(amount, symbol, prices), 0.0, 0.0)]
  }

  /** Add followed by delete of the new id gives back the old list when that
      id was not in use. Ids come from the clock, so the model does not
      assume they are fresh. */
  lemma AddThenDelete(hs: seq<Holding>, id: int, symbol: string, amount: real, prices: map<string, Quote>)
    requires forall k :: 0 <= k < |hs| ==> hs[k].id != id
    ensures DeleteHolding(AddHolding(hs, id, symbol, amount, prices), id) == hs
  {
    var added := AddHolding(hs, id, symbol, amount, prices);
    FilterAppend(hs, [added[|hs|]], (h: Holding) => h.id != id);
    assert added == hs + [added[|hs|]];
    FilterKeepsAll(hs, (h: Holding) => h.id != id);
  }

  // ---------------------------------------------------------------------------
  // The provider's state

  /** Holdings whose allocations are current: a further run of the allocation
      effect would not change them. */
  ghost predicate Settled(hs: seq<Holding>)
  {
    Reallocate(hs) == hs
  }

  /** The provider's state. Every method applies one updater of the source and
      then the allocation effect that the change of `holdings` triggers. */
  class PortfolioStore {
    var holdings: seq<Holding>
    var prices: map<string, Quote>
    var loading: bool

    /** `useState([])`, `useState({})`, `useState(true)`. */
    constructor ()
      ensures holdings == [] && prices == map[] && loading
      ensures Settled(holdings)
    {
      holdings := [];
      prices := map[];
      loading := true;
    }

    /** The allocation effect; it does nothing on an empty list, which
        `Reallocate` also leaves empty. */
    method RecomputeAllocations()
      modifies this
      ensures holdings == Reallocate(old(holdings))
      ensures prices == old(prices) && loading == old(loading)
      ensures Settled(holdings)
    {
      if |holdings| > 0 {
        holdings := Reallocate(holdings);
      }
      ReallocateIdempotent(old(holdings));
    }

    /** The first step of `loadHoldings`: `setHoldings(initialHoldings)`. */
    method LoadSeed()
      modifies this
      ensures holdings == Reallocate(Seed()) && holdings == Seed()
      ensures prices == old(prices) && loading == old(loading)
      ensures Settled(holdings)
    {
      holdings := Seed();
      RecomputeAllocations();
      SeedIsSettled();
    }

    /** The second step of `loadHoldings`, once every lookup has answered:
        merge the successful results, then clear `loading`. */
    method FinishInitialLoad(results: seq<Option<PriceResult>>)
      modifies this
      ensures holdings == Reallocate(ApplyInitialPrices(old(holdings), results))
      ensures prices == old(prices) && !loading
      ensures Settled(holdings)
    {
      holdings := ApplyInitialPrices(holdings, results);
      RecomputeAllocations();
      loading := false;
    }

    /** The WebSocket callback: store the message's prices and merge them into
        the holdings. */
    method OnPriceMessage(snapshot: map<string, Quote>)
      modifies this
      ensures prices == snapshot
      ensures holdings == Reallocate(ApplySnapshot(old(holdings), snapshot))
      ensures loading == old(loading)
      ensures Settled(holdings)
    {
      prices := snapshot;
      holdings := ApplySnapshot(holdings, snapshot);
      RecomputeAllocations();
    }

    method Delete(id: int)
      modifies this
      ensures holdings == Reallocate(DeleteHolding(old(holdings), id))
      ensures prices == old(prices) && loading == old(loading)
      ensures Settled(holdings)
    {
      holdings := DeleteHolding(holdings, id);
      RecomputeAllocations();
    }

    /** `addHolding`, with the value the code means (see `NewValue`); `id` is
        the clock reading the source takes from `Date.now()`. */
    method Add(id: int, symbol: string, amount: real)
      modifies this
      ensures holdings == Reallocate(AddHolding(old(holdings), id, symbol, amount, old(prices)))
      ensures prices == old(prices) && loading == old(loading)
      ensures Settled(holdings)
    {
      holdings := AddHolding(holdings, id, symbol, amount, prices);
      RecomputeAllocations();
    }
  }

  /** The seed list is already settled: all values are 0, so all allocations
      stay 0. */
  lemma SeedIsSettled()
    ensures Reallocate(Seed()) == Seed()
  {
    ZeroTotal(Seed());
  }

  lemma {:induction false} ZeroTotal(hs: seq<Holding>)
    requires forall k :: 0 <= k < |hs| ==> hs[k].value == 0.0
    ensures TotalValue(hs) == 0.0
  {
    if hs != [] {
      ZeroTotal(hs[1..]);
    }
  }
}
