/**
 The strategy manager (`SplitStrategy`): instrument code to configuration,
 the buy and sell intents built for a tick, and loading from a list of
 dictionaries.
 */
module Registry {
  import opened Base
  import opened Ledger
  import opened Strategy
  import opened Records

  datatype SplitStrategy = SplitStrategy(stocks: map<string, StockConfig>)

  /** `add_stock`: registers the configuration under its code, replacing any previous one. */
  function AddStock(s: SplitStrategy, stock: StockConfig): (r: SplitStrategy)
    ensures r.stocks.Keys == s.stocks.Keys + {stock.code}
    ensures r.stocks[stock.code] == stock
    ensures forall k :: k in s.stocks && k != stock.code ==> r.stocks[k] == s.stocks[k]
  {
    SplitStrategy(s.stocks[stock.code := stock])
  }

  /** `remove_stock`: forgets the code if present; a missing code is not an error. */
  function RemoveStock(s: SplitStrategy, code: string): (r: SplitStrategy)
    ensures r.stocks.Keys == s.stocks.Keys - {code}
    ensures forall k :: k in r.stocks ==> r.stocks[k] == s.stocks[k]
  {
    SplitStrategy(s.stocks - {code})
  }

  /** `get_stock`. */
  function GetStock(s: SplitStrategy, code: string): (r: Option<StockConfig>)
    ensures r.Some? <==> code in s.stocks
    ensures r.Some? ==> r.value == s.stocks[code]
  {
    if code in s.stocks then Some(s.stocks[code]) else None
  }

  /** What was added can be looked up; what was removed cannot. */
  lemma AddGetRemove(s: SplitStrategy, stock: StockConfig)
    ensures GetStock(AddStock(s, stock), stock.code) == Some(stock)
    ensures GetStock(RemoveStock(AddStock(s, stock), stock.code), stock.code) == None
    ensures RemoveStock(AddStock(s, stock), stock.code) == RemoveStock(s, stock.code)
  {
  }

  /** The buy decision for one tick. */
  datatype BuyIntent =
    | NoBuy
    | Buy(code: string, price: int, quantity: int, round: int, prevPrice: int)

  /**
   `check_buy_condition`: an unknown code gives no buy; otherwise a buy intent
   exactly when `should_buy` holds, numbered one above the current round and
   sized by `calculate_buy_quantity`.
   */
  function CheckBuy(s: SplitStrategy, code: string, p: int, now: int): (r: Py<BuyIntent>)
    ensures code !in s.stocks ==> r == Value(NoBuy)
    ensures code in s.stocks ==> (r.Raised? <==> ShouldBuy(s.stocks[code], p, now).Raised?)
    ensures code in s.stocks && r.Value? ==> (r.value.Buy? <==> ShouldBuy(s.stocks[code], p, now) == Value(true))
    ensures r.Value? && r.value.Buy? ==>
      var c := s.stocks[code];
      && code in s.stocks
      && r.value.code == code
      && r.value.price == p
      && r.value.round == CurrentRound(c) + 1
      && r.value.quantity == BuyQuantity(c, p)
      && LastHeld(c).Some?
      && r.value.prevPrice == c.purchases[LastHeld(c).value].price
  {
    if code !in s.stocks then Value(NoBuy)
    else
      var c := s.stocks[code];
      match ShouldBuy(c, p, now)
      case Raised(e) => Raised(e)
      case Value(false) => Value(NoBuy)
      case Value(true) =>
        var prev := match LastHeld(c) case Some(i) => c.purchases[i].price case None => 0;
        Value(Buy(code, p, BuyQuantity(c, p), CurrentRound(c) + 1, prev))
  }

  /** One sell order intent: which purchase, at what price, and its profit. */
  datatype SellIntent = SellIntent(
    code: string,
    position: nat,
    price: int,
    quantity: int,
    round: int,
    targetPrice: int,
    profit: int,
    profitRate: real)

  /** `(p - price) / price * 100` in Python's true division. */
  function ProfitRate(p: int, price: int): (r: real)
    requires price != 0
    ensures r * price as real == (p - price) as real * 100.0
  {
    (p - price) as real / price as real * 100.0
  }

  /** The sell intent for the purchase at position `x`, with the source's profit figures. */
  function IntentFor(c: StockConfig, code: string, x: nat, p: int): (it: SellIntent)
    requires x < |c.purchases| && PurchaseTarget(c, x).Some? && c.purchases[x].price != 0
    ensures it.code == code && it.position == x && it.price == p
    ensures it.quantity == c.purchases[x].quantity && it.round == c.purchases[x].round
    ensures it.targetPrice == PurchaseTarget(c, x).value
    ensures it.profit == (p - c.purchases[x].price) * c.purchases[x].quantity
    ensures it.profitRate * c.purchases[x].price as real == (p - c.purchases[x].price) as real * 100.0
  {
    var pur := c.purchases[x];
    SellIntent(code, x, p, pur.quantity, pur.round, PurchaseTarget(c, x).value,
               (p - pur.price) * pur.quantity, ProfitRate(p, pur.price))
  }

  /** The sell intents for the listed positions; a zero purchase price raises in the profit rate. */
  function SellIntentsFor(c: StockConfig, code: string, xs: seq<nat>, p: int): (r: Py<seq<SellIntent>>)
    requires InRange(c.purchases, xs)
    requires forall k :: 0 <= k < |xs| ==> PurchaseTarget(c, xs[k]).Some?
    ensures r.Raised? <==> exists k :: 0 <= k < |xs| && c.purchases[xs[k]].price == 0
    ensures r.Raised? ==> r.error == ZeroDivisionError
    ensures r.Value? ==> |r.value| == |xs|
    ensures r.Value? ==> forall k :: 0 <= k < |xs| ==>
      c.purchases[xs[k]].price != 0 && r.value[k] == IntentFor(c, code, xs[k], p)
  {
    if |xs| == 0 then Value([])
    else if c.purchases[xs[0]].price == 0 then Raised(ZeroDivisionError)
    else
      var it := IntentFor(c, code, xs[0], p);
      var tail := SellIntentsFor(c, code, xs[1..], p);
      assert forall k :: 0 <= k < |xs[1..]| ==> xs[1..][k] == xs[k + 1];
      match tail
      case Raised(e) => Raised(e)
      case Value(rest) => Value([it] + rest)
  }

  /**
   `check_sell_condition`: an unknown code gives no intents; otherwise one
   intent per round `should_sell` returns, in that order.
   */
  function CheckSell(s: SplitStrategy, code: string, p: int): (r: Py<seq<SellIntent>>)
    ensures code !in s.stocks ==> r == Value([])
    ensures code in s.stocks && ShouldSell(s.stocks[code], p).Raised? ==> r.Raised?
    ensures code in s.stocks && ShouldSell(s.stocks[code], p).Value? ==>
      (r.Raised? <==> exists k :: 0 <= k < |ShouldSell(s.stocks[code], p).value|
                                && FreeAt(s.stocks[code].purchases, ShouldSell(s.stocks[code], p).value[k]))
    ensures code in s.stocks && ShouldSell(s.stocks[code], p).Value? && r.Raised? ==> r.error == ZeroDivisionError
    ensures r.Value? && code in s.stocks ==>
      ShouldSell(s.stocks[code], p).Value? && SaleOrders(s.stocks[code], code, p, ShouldSell(s.stocks[code], p).value, r.value)
  {
    if code !in s.stocks then Value([])
    else
      var c := s.stocks[code];
      match ShouldSell(c, p)
      case Raised(e) => Raised(e)
      case Value(xs) =>
        IntentsForSellable(c, code, xs, p);
        SellIntentsFor(c, code, xs, p)
  }

  /** The purchase at position `x` was bought at price 0, so its profit rate divides by zero. */
  predicate FreeAt(ps: seq<Purchase>, x: nat)
  {
    x < |ps| && ps[x].price == 0
  }

  /**
   One intent per listed position, in order, each for a held purchase that
   reaches its target, carrying its quantity, round and profit.
   */
  predicate SaleOrders(c: StockConfig, code: string, p: int, xs: seq<nat>, intents: seq<SellIntent>)
  {
    && |intents| == |xs|
    && forall k :: 0 <= k < |intents| ==>
      && intents[k].position == xs[k]
      && intents[k].code == code && intents[k].price == p
      && xs[k] < |c.purchases|
      && HeldAt(c.purchases, xs[k])
      && Reaches(c, xs[k], p)
      && intents[k].quantity == c.purchases[xs[k]].quantity
      && intents[k].round == c.purchases[xs[k]].round
      && intents[k].profit == (p - c.purchases[xs[k]].price) * intents[k].quantity
  }

  /** The intents built for sellable positions describe held purchases that reach their target. */
  lemma IntentsForSellable(c: StockConfig, code: string, xs: seq<nat>, p: int)
    requires ShouldSell(c, p) == Value(xs)
    ensures InRange(c.purchases, xs) && forall k :: 0 <= k < |xs| ==> PurchaseTarget(c, xs[k]).Some?
    ensures SellIntentsFor(c, code, xs, p).Value? ==> SaleOrders(c, code, p, xs, SellIntentsFor(c, code, xs, p).value)
    ensures SellIntentsFor(c, code, xs, p).Raised? <==> exists k :: 0 <= k < |xs| && FreeAt(c.purchases, xs[k])
  {
    assert forall k :: 0 <= k < |xs| ==> xs[k] in xs;
    assert forall k :: 0 <= k < |xs| ==> (FreeAt(c.purchases, xs[k]) <==> c.purchases[xs[k]].price == 0);
  }

  /**
   Every held round has a target rate (the rate list is non-empty and the round
   indexes it, from the end for rounds ≤ 0) and a non-zero price to divide by.
   */
  predicate SellCheckable(c: StockConfig)
  {
    && |c.targetRates| > 0
    && forall x :: 0 <= x < |c.purchases| && HeldAt(c.purchases, x) ==>
      c.purchases[x].round >= 1 - |c.targetRates| && c.purchases[x].price != 0
  }

  lemma SellCheckableTargets(c: StockConfig)
    requires SellCheckable(c)
    ensures forall x :: HeldAt(c.purchases, x) ==> PurchaseTarget(c, x).Some? && c.purchases[x].price != 0
  {
  }

  /**
   For an active stock with a current round whose held purchases all have a
   target and a non-zero price, the sell check does not raise and orders
   exactly the held rounds that reach their target at `p`.
   */
  lemma CheckSellOrdersReachedRounds(s: SplitStrategy, code: string, p: int)
    requires code in s.stocks && s.stocks[code].isActive && CurrentRound(s.stocks[code]) != 0
    requires SellCheckable(s.stocks[code])
    ensures CheckSell(s, code, p).Value?
    ensures forall x ::
      (exists k :: 0 <= k < |CheckSell(s, code, p).value| && CheckSell(s, code, p).value[k].position == x) <==>
      HeldAt(s.stocks[code].purchases, x) && Reaches(s.stocks[code], x, p)
  {
    var c := s.stocks[code];
    SellCheckableTargets(c);
    var xs := ShouldSell(c, p).value;
    assert forall k :: 0 <= k < |xs| ==> xs[k] in xs && !FreeAt(c.purchases, xs[k]);
    var r := CheckSell(s, code, p).value;
    forall x ensures (exists k :: 0 <= k < |r| && r[k].position == x) <==> HeldAt(c.purchases, x) && Reaches(c, x, p) {
      if HeldAt(c.purchases, x) && Reaches(c, x, p) {
        assert x in xs;
        var k :| 0 <= k < |xs| && xs[k] == x;
        assert r[k].position == x;
      }
    }
  }

  /** Reference definition: the position of the first failed item among the first `n`. */
  function FirstFailure(ds: seq<Decoded<StockConfig>>, n: nat): (r: Option<nat>)
    requires n <= |ds|
    ensures r.None? <==> forall i :: 0 <= i < n ==> ds[i].Ok?
    ensures r.Some? ==> r.value < n && ds[r.value].Fail? && forall j :: 0 <= j < r.value ==> ds[j].Ok?
  {
    if n == 0 then None
    else if FirstFailure(ds, n - 1).Some? then FirstFailure(ds, n - 1)
    else if ds[n - 1].Fail? then Some(n - 1)
    else None
  }

  /**
   The registry built from the first `n` decoded items. At the first failed
   item loading stops with its error, keeping what the items before it built.
   */
  function LoadDecoded(ds: seq<Decoded<StockConfig>>, n: nat): (r: (SplitStrategy, Option<DecodeError>))
    requires n <= |ds|
    ensures r.1.None? <==> forall i :: 0 <= i < n ==> ds[i].Ok?
    ensures FirstFailure(ds, n).Some? ==> r.1 == Some(ds[FirstFailure(ds, n).value].error)
  {
    if n == 0 then (SplitStrategy(map[]), None)
    else
      var prev := LoadDecoded(ds, n - 1);
      if prev.1.Some? then prev
      else
        match ds[n - 1]
        case Fail(e) => (prev.0, Some(e))
        case Ok(c) => (AddStock(prev.0, c), None)
  }

  /** A load that fails keeps exactly the registry the items before the first failure built. */
  lemma {:induction false} LoadDecodedStops(ds: seq<Decoded<StockConfig>>, n: nat)
    requires n <= |ds| && FirstFailure(ds, n).Some?
    ensures var i := FirstFailure(ds, n).value;
      LoadDecoded(ds, i).1.None? && LoadDecoded(ds, n).0 == LoadDecoded(ds, i).0
  {
    if FirstFailure(ds, n - 1).Some? {
      LoadDecodedStops(ds, n - 1);
    }
  }

  /** A successful load registers exactly the decoded codes. */
  lemma {:induction false} LoadDecodedKeys(ds: seq<Decoded<StockConfig>>, n: nat)
    requires n <= |ds| && forall i :: 0 <= i < n ==> ds[i].Ok?
    ensures forall k :: k in LoadDecoded(ds, n).0.stocks <==> exists i :: 0 <= i < n && ds[i].value.code == k
  {
    if n > 0 {
      LoadDecodedKeys(ds, n - 1);
      forall k ensures k in LoadDecoded(ds, n).0.stocks <==> exists i :: 0 <= i < n && ds[i].value.code == k {
        if k in LoadDecoded(ds, n).0.stocks && k != ds[n - 1].value.code {
          var i :| 0 <= i < n - 1 && ds[i].value.code == k;
        }
      }
    }
  }

  /** In a successful load the last item with a given code is the one registered. */
  lemma {:induction false} LoadDecodedLastWins(ds: seq<Decoded<StockConfig>>, n: nat, i: nat)
    requires n <= |ds| && forall j :: 0 <= j < n ==> ds[j].Ok?
    requires i < n && forall j :: i < j < n ==> ds[j].value.code != ds[i].value.code
    ensures ds[i].value.code in LoadDecoded(ds, n).0.stocks
    ensures LoadDecoded(ds, n).0.stocks[ds[i].value.code] == ds[i].value
  {
    if i < n - 1 {
      LoadDecodedLastWins(ds, n - 1, i);
    }
  }

  function DecodeAll(items: seq<map<string, Json>>, defaultBuyAmount: int): (ds: seq<Decoded<StockConfig>>)
    ensures |ds| == |items|
    ensures forall i :: 0 <= i < |items| ==> ds[i] == FromDict(items[i], defaultBuyAmount)
  {
    seq(|items|, i requires 0 <= i < |items| => FromDict(items[i], defaultBuyAmount))
  }

  /**
   `load_from_list`: clears the map, then registers each decoded item under its
   code, a later item replacing an earlier one with the same code. A decoding
   error stops the load and leaves the items before it registered. Decoding is
   pure, so decoding every item up front and stopping at the first failure
   matches the source's item-by-item loop.
   */
  function LoadFromList(items: seq<map<string, Json>>, defaultBuyAmount: int): (r: (SplitStrategy, Option<DecodeError>))
    ensures r.1.None? <==> forall i :: 0 <= i < |items| ==> FromDict(items[i], defaultBuyAmount).Ok?
    ensures r.1.Some? ==>
      exists i ::
        && 0 <= i < |items|
        && FromDict(items[i], defaultBuyAmount) == Fail(r.1.value)
        && (forall j :: 0 <= j < i ==> FromDict(items[j], defaultBuyAmount).Ok?)
        && LoadFromList(items[..i], defaultBuyAmount) == (r.0, None)
  {
    var ds := DecodeAll(items, defaultBuyAmount);
    LoadStopsAtFirstFailure(items, defaultBuyAmount);
    LoadDecoded(ds, |ds|)
  }

  /** Loading stops at the first failing item with exactly the items before it registered. */
  lemma LoadStopsAtFirstFailure(items: seq<map<string, Json>>, defaultBuyAmount: int)
    ensures var r := LoadDecoded(DecodeAll(items, defaultBuyAmount), |items|);
      r.1.Some? ==>
        exists i ::
          && 0 <= i < |items|
          && FromDict(items[i], defaultBuyAmount) == Fail(r.1.value)
          && (forall j :: 0 <= j < i ==> FromDict(items[j], defaultBuyAmount).Ok?)
          && LoadDecoded(DecodeAll(items[..i], defaultBuyAmount), i) == (r.0, None)
  {
    var ds := DecodeAll(items, defaultBuyAmount);
    var r := LoadDecoded(ds, |items|);
    if r.1.Some? {
      var i := FirstFailure(ds, |items|).value;
      LoadDecodedStops(ds, |items|);
      LoadDecodedPrefix(ds, DecodeAll(items[..i], defaultBuyAmount), i);
      assert FromDict(items[i], defaultBuyAmount) == Fail(r.1.value);
    }
  }

  /** Loading the first `n` items only looks at those items. */
  lemma {:induction false} LoadDecodedPrefix(ds: seq<Decoded<StockConfig>>, es: seq<Decoded<StockConfig>>, n: nat)
    requires n <= |ds| && n <= |es| && forall j :: 0 <= j < n ==> ds[j] == es[j]
    ensures LoadDecoded(ds, n) == LoadDecoded(es, n)
  {
    if n > 0 {
      LoadDecodedPrefix(ds, es, n - 1);
      assert ds[n - 1] == es[n - 1];
    }
  }

  /**
   A successful `load_from_list` registers exactly the decoded codes, each bound
   to the last item that carries it.
   */
  lemma LoadFromListContents(items: seq<map<string, Json>>, defaultBuyAmount: int)
    requires LoadFromList(items, defaultBuyAmount).1.None?
    ensures var ds := DecodeAll(items, defaultBuyAmount);
      var m := LoadFromList(items, defaultBuyAmount).0.stocks;
      && (forall k :: k in m <==> exists i :: 0 <= i < |ds| && ds[i].value.code == k)
      && (forall i :: 0 <= i < |ds| && (forall j :: i < j < |ds| ==> ds[j].value.code != ds[i].value.code) ==>
            ds[i].value.code in m && m[ds[i].value.code] == ds[i].value)
  {
    var ds := DecodeAll(items, defaultBuyAmount);
    LoadDecodedKeys(ds, |ds|);
    forall i | 0 <= i < |ds| && (forall j :: i < j < |ds| ==> ds[j].value.code != ds[i].value.code)
      ensures ds[i].value.code in LoadDecoded(ds, |ds|).0.stocks
      ensures LoadDecoded(ds, |ds|).0.stocks[ds[i].value.code] == ds[i].value
    {
      LoadDecodedLastWins(ds, |ds|, i);
    }
  }

  /** Saving every configuration with `to_dict` and loading the list back restores the map. */
  lemma LoadSavedList(cs: seq<StockConfig>, defaultBuyAmount: int)
    requires forall i, j :: 0 <= i < j < |cs| ==> cs[i].code != cs[j].code
    requires forall i :: 0 <= i < |cs| ==> cs[i].lastOrderTime.None?
    ensures var r := LoadFromList(seq(|cs|, i requires 0 <= i < |cs| => ToDict(cs[i])), defaultBuyAmount);
      && r.1.None?
      && forall i :: 0 <= i < |cs| ==> cs[i].code in r.0.stocks && r.0.stocks[cs[i].code] == cs[i]
  {
    var items := seq(|cs|, i requires 0 <= i < |cs| => ToDict(cs[i]));
    forall i | 0 <= i < |cs| ensures FromDict(items[i], defaultBuyAmount) == Ok(cs[i]) {
      DictRoundTrip(cs[i], defaultBuyAmount);
      assert cs[i].(lastOrderTime := None) == cs[i];
    }
    LoadFromListContents(items, defaultBuyAmount);
  }
}
