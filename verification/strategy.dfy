/**
 The scale-in decisions of one instrument and the two ledger mutations:
 the next buy trigger price, the per-round sell targets, the buy and sell
 predicates, buy sizing, `add_purchase` and `mark_sold`.
 Times are microseconds; `now` is passed in instead of read from a clock.
 */
module Strategy {
  import opened Base
  import opened Ledger

  const MICROS_PER_SECOND: int := 1_000_000

  /** Minimum time between two orders of one instrument (60 s). */
  const ORDER_COOLDOWN: int := 60 * MICROS_PER_SECOND

  /** `int(price * (1 - rate / 100))`: the price `rate` percent below `price`. */
  function SplitPrice(price: int, rate: real): (r: int)
    ensures var x := price as real * (1.0 - rate / 100.0);
      && (0.0 <= x ==> r as real <= x < r as real + 1.0)
      && (x < 0.0 ==> r as real - 1.0 < x <= r as real)
    ensures 0 <= price && 0.0 <= rate ==> r <= price
    ensures 0 <= price && rate <= 100.0 ==> 0 <= r
  {
    if 0 <= price && 0.0 <= rate then
      ScaledBelow(price, rate);
      Trunc(price as real * (1.0 - rate / 100.0))
    else Trunc(price as real * (1.0 - rate / 100.0))
  }

  /** `int(price * (1 + rate / 100))`: the price `rate` percent above `price`. */
  function TargetPrice(price: int, rate: real): (r: int)
    ensures var x := price as real * (1.0 + rate / 100.0);
      && (0.0 <= x ==> r as real <= x < r as real + 1.0)
      && (x < 0.0 ==> r as real - 1.0 < x <= r as real)
    ensures 0 <= price && 0.0 <= rate ==> price <= r
  {
    if 0 <= price && 0.0 <= rate then
      ScaledAbove(price, rate);
      Trunc(price as real * (1.0 + rate / 100.0))
    else Trunc(price as real * (1.0 + rate / 100.0))
  }

  lemma ScaledBelow(price: int, rate: real)
    requires 0 <= price && 0.0 <= rate
    ensures price as real * (1.0 - rate / 100.0) <= price as real
  {
    assert price as real * (1.0 - rate / 100.0) == price as real - price as real * (rate / 100.0);
    assert price as real * (rate / 100.0) >= 0.0;
  }

  lemma ScaledAbove(price: int, rate: real)
    requires 0 <= price && 0.0 <= rate
    ensures price as real <= price as real * (1.0 + rate / 100.0)
  {
    assert price as real * (1.0 + rate / 100.0) == price as real + price as real * (rate / 100.0);
    assert price as real * (rate / 100.0) >= 0.0;
  }

  function Min(a: int, b: int): int
  {
    if a <= b then a else b
  }

  /** The target rate of a round: index `min(round - 1, len - 1)`, Python indexing. */
  function TargetRate(c: StockConfig, round: int): (r: Option<real>)
    ensures r.None? <==> |c.targetRates| == 0 || round - 1 < -|c.targetRates|
    ensures 1 <= round <= |c.targetRates| ==> r == Some(c.targetRates[round - 1])
    ensures |c.targetRates| > 0 && round > |c.targetRates| ==> r == Some(c.targetRates[|c.targetRates| - 1])
    ensures 1 - |c.targetRates| <= round <= 0 ==> r == Some(c.targetRates[|c.targetRates| + round - 1])
  {
    PyIndex(c.targetRates, Min(round - 1, |c.targetRates| - 1))
  }

  /** The sell target of the purchase at position `i`; None where indexing raises. */
  function PurchaseTarget(c: StockConfig, i: nat): Option<int>
    requires i < |c.purchases|
  {
    match TargetRate(c, c.purchases[i].round)
    case None => None
    case Some(rate) => Some(TargetPrice(c.purchases[i].price, rate))
  }

  /** The purchase at position `i` has reached its sell target at price `p` (inclusive). */
  predicate Reaches(c: StockConfig, i: nat, p: int)
    requires i < |c.purchases|
  {
    PurchaseTarget(c, i).Some? && p >= PurchaseTarget(c, i).value
  }

  /** The `get_next_split_price` rule, on the last held purchase. */
  function NextSplitPrice(c: StockConfig): (r: Py<Option<int>>)
    ensures CurrentRound(c) == 0 || CurrentRound(c) >= MaxRound(c) ==> r == Value(None)
    ensures 1 <= CurrentRound(c) < MaxRound(c) ==>
      && LastHeld(c).Some?
      && r == Value(Some(SplitPrice(c.purchases[LastHeld(c).value].price,
                                    c.splitRates[CurrentRound(c) - 1])))
    ensures CurrentRound(c) < 0 && PyIndex(c.splitRates, CurrentRound(c) - 1).Some? ==>
      && LastHeld(c).Some?
      && r == Value(Some(SplitPrice(c.purchases[LastHeld(c).value].price,
                                    PyIndex(c.splitRates, CurrentRound(c) - 1).value)))
    ensures r.Raised? <==>
      CurrentRound(c) < 0 && PyIndex(c.splitRates, CurrentRound(c) - 1).None?
  {
    match LastHeld(c)
    case None => Value(None)
    case Some(last) =>
      var round := c.purchases[last].round;
      if round >= MaxRound(c) then Value(None)
      else if round == 0 then Value(None)
      else
        match PyIndex(c.splitRates, round - 1)
        case None => Raised(IndexError)
        case Some(rate) => Value(Some(SplitPrice(c.purchases[last].price, rate)))
  }

  /** The held positions in `s` that reach their target at `p`, keeping the order of `s`. */
  function SellableIn(c: StockConfig, s: seq<nat>, p: int): (r: Py<seq<nat>>)
    requires InRange(c.purchases, s)
    ensures r.Raised? <==> exists k :: 0 <= k < |s| && PurchaseTarget(c, s[k]).None?
    ensures r.Value? ==> forall x :: x in r.value <==> x in s && Reaches(c, x, p)
    ensures r.Value? && Ordered(c.purchases, s) ==> Ordered(c.purchases, r.value)
  {
    if |s| == 0 then Value([])
    else
      match PurchaseTarget(c, s[0])
      case None => Raised(IndexError)
      case Some(target) =>
        match SellableIn(c, s[1..], p)
        case Raised(e) => Raised(e)
        case Value(rest) =>
          HeadAndTail(s);
          OrderedTailAfterHead(c.purchases, s);
          Value(if p >= target then [s[0]] + rest else rest)
  }

  /**
   `get_sellable_purchases`: the held purchases whose target is reached, in held
   order; raises IndexError when some held round has no target rate to index.
   */
  function Sellable(c: StockConfig, p: int): (r: Py<seq<nat>>)
    ensures r.Raised? <==> exists x :: HeldAt(c.purchases, x) && PurchaseTarget(c, x).None?
    ensures r.Value? ==> Ordered(c.purchases, r.value)
    ensures r.Value? ==> forall x :: x in r.value <==> HeldAt(c.purchases, x) && Reaches(c, x, p)
  {
    var h := Held(c);
    var r := SellableIn(c, h, p);
    assert r.Raised? ==> exists x :: HeldAt(c.purchases, x) && PurchaseTarget(c, x).None? by {
      if r.Raised? {
        var k :| 0 <= k < |h| && PurchaseTarget(c, h[k]).None?;
        assert h[k] in h;
      }
    }
    assert (exists x :: HeldAt(c.purchases, x) && PurchaseTarget(c, x).None?) ==> r.Raised? by {
      if exists x :: HeldAt(c.purchases, x) && PurchaseTarget(c, x).None? {
        var x :| HeldAt(c.purchases, x) && PurchaseTarget(c, x).None?;
        assert x in h;
        var k :| 0 <= k < |h| && h[k] == x;
      }
    }
    r
  }

  /** A higher price never makes fewer rounds sellable, and never changes whether it raises. */
  lemma SellableMonotone(c: StockConfig, p: int, q: int)
    requires p <= q
    ensures Sellable(c, p).Raised? == Sellable(c, q).Raised?
    ensures Sellable(c, p).Value? ==> forall x :: x in Sellable(c, p).value ==> x in Sellable(c, q).value
  {
  }

  /** The sell boundary is inclusive: a held round sells at its target and not one unit below. */
  lemma SellBoundary(c: StockConfig, i: nat)
    requires HeldAt(c.purchases, i)
    requires forall x :: HeldAt(c.purchases, x) ==> PurchaseTarget(c, x).Some?
    ensures var t := PurchaseTarget(c, i).value;
      && Sellable(c, t).Value? && i in Sellable(c, t).value
      && Sellable(c, t - 1).Value? && i !in Sellable(c, t - 1).value
  {
  }

  /** Every held round has a target when the target list is non-empty and rounds are positive. */
  lemma TargetsDefined(c: StockConfig, i: nat)
    requires i < |c.purchases| && |c.targetRates| > 0 && c.purchases[i].round >= 0
    ensures PurchaseTarget(c, i).Some?
  {
  }

  /** The last order was placed less than the cooldown before `now`. */
  predicate CoolingDown(c: StockConfig, now: int)
  {
    c.lastOrderTime.Some? && now - c.lastOrderTime.value < ORDER_COOLDOWN
  }

  /** The gates of `should_buy` that come before the price comparison. */
  predicate BuyGatesOpen(c: StockConfig, now: int)
  {
    && c.isActive
    && CurrentRound(c) < MaxRound(c)
    && CurrentRound(c) != 0
    && !CoolingDown(c, now)
  }

  /** `should_buy`: every gate open, and the price at or below a non-zero split price. */
  function ShouldBuy(c: StockConfig, p: int, now: int): (r: Py<bool>)
    ensures !BuyGatesOpen(c, now) ==> r == Value(false)
    ensures r.Raised? <==> BuyGatesOpen(c, now) && NextSplitPrice(c).Raised?
    ensures r == Value(true) <==>
      && BuyGatesOpen(c, now)
      && NextSplitPrice(c).Value? && NextSplitPrice(c).value.Some?
      && NextSplitPrice(c).value.value != 0
      && p <= NextSplitPrice(c).value.value
  {
    if !c.isActive then Value(false)
    else if CurrentRound(c) >= MaxRound(c) then Value(false)
    else if CurrentRound(c) == 0 then Value(false)
    else if c.lastOrderTime.Some? && now - c.lastOrderTime.value < ORDER_COOLDOWN then Value(false)
    else
      match NextSplitPrice(c)
      case Raised(e) => Raised(e)
      case Value(split) => Value(split.Some? && split.value != 0 && p <= split.value)
  }

  /**
   Feeding the split price back as the tick price triggers the buy (inclusive
   boundary), and any lower price does too.
   */
  lemma BuyAtSplitPrice(c: StockConfig, now: int, q: int)
    requires BuyGatesOpen(c, now) && CurrentRound(c) >= 1
    requires NextSplitPrice(c).value.value != 0
    requires q <= NextSplitPrice(c).value.value
    ensures ShouldBuy(c, NextSplitPrice(c).value.value, now) == Value(true)
    ensures ShouldBuy(c, q, now) == Value(true)
  {
  }

  /** With non-negative rates and prices, a buy only fires at or below the last held price. */
  lemma BuyOnlyOnDrop(c: StockConfig, p: int, now: int)
    requires ShouldBuy(c, p, now) == Value(true)
    requires CurrentRound(c) >= 1
    requires forall k :: 0 <= k < |c.splitRates| ==> 0.0 <= c.splitRates[k]
    ensures LastHeld(c).Some?
    ensures c.purchases[LastHeld(c).value].price >= 0 ==> p <= c.purchases[LastHeld(c).value].price
  {
  }

  /** `should_sell`: nothing when inactive or no round is current; else the sellable rounds. */
  function ShouldSell(c: StockConfig, p: int): (r: Py<seq<nat>>)
    ensures r.Raised? <==>
      c.isActive && CurrentRound(c) != 0 && exists x :: HeldAt(c.purchases, x) && PurchaseTarget(c, x).None?
    ensures r.Value? ==> Ordered(c.purchases, r.value)
    ensures r.Value? ==> forall x :: x in r.value <==>
      c.isActive && CurrentRound(c) != 0 && HeldAt(c.purchases, x) && Reaches(c, x, p)
  {
    if !c.isActive || CurrentRound(c) == 0 then Value([]) else Sellable(c, p)
  }

  /** `calculate_buy_quantity`: whole shares the buy amount affords, at least one. */
  function BuyQuantity(c: StockConfig, p: int): (r: int)
    ensures p <= 0 ==> r == 0
    ensures p > 0 ==> r >= 1
    ensures p > 0 && c.buyAmount >= p ==> r * p <= c.buyAmount < (r + 1) * p
    ensures p > 0 && c.buyAmount < p ==> r == 1
  {
    if p <= 0 then 0
    else
      var q := c.buyAmount / p;
      if q < 1 then 1 else q
  }

  /**
   `add_purchase`: appends one held purchase numbered one above the current
   round and stamps the order time; nothing else changes.
   */
  function AddPurchase(c: StockConfig, price: int, quantity: int, purchaseId: Option<string>,
                       date: string, now: int): (r: (StockConfig, Purchase))
    ensures r.0.purchases == c.purchases + [r.1]
    ensures r.1.round == CurrentRound(c) + 1
    ensures r.1.price == price && r.1.quantity == quantity && r.1.id == purchaseId
    ensures r.1.date == date && IsHolding(r.1) && r.1.soldPrice.None? && r.1.soldDate.None?
    ensures r.0 == c.(purchases := r.0.purchases, lastOrderTime := Some(now))
  {
    var p := Purchase(purchaseId, CurrentRound(c) + 1, price, quantity, date, HOLDING, None, None);
    (c.(purchases := c.purchases + [p], lastOrderTime := Some(now)), p)
  }

  /** After `add_purchase` the new purchase is the last held one and the current round rises by one. */
  lemma AddPurchaseAdvancesRound(c: StockConfig, price: int, quantity: int, purchaseId: Option<string>,
                                 date: string, now: int)
    ensures var c' := AddPurchase(c, price, quantity, purchaseId, date, now).0;
      && Held(c') == Held(c) + [|c.purchases|]
      && LastHeld(c') == Some(|c.purchases|)
      && CurrentRound(c') == CurrentRound(c) + 1
  {
    var r := AddPurchase(c, price, quantity, purchaseId, date, now);
    var c' := r.0;
    var n := |c.purchases|;
    var ps := c.purchases;
    var ps' := c'.purchases;
    var h := Held(c);
    var t := h + [n];
    assert forall x :: HeldAt(ps, x) ==> ps[x].round <= CurrentRound(c);
    forall a, b | 0 <= a < b < |t| ensures Before(ps', t[a], t[b]) {
      if b < |h| {
        assert Before(ps, h[a], h[b]);
      } else {
        assert h[a] in h;
      }
    }
    assert Ordered(ps', t);
    forall x ensures x in t <==> HeldAt(ps', x) {
      if 0 <= x < n {
        assert ps'[x] == ps[x];
      }
    }
    OrderedUnique(ps', t, Held(c'));
  }

  /**
   `mark_sold`: only the purchase at position `i` changes, and only its status,
   sale price and sale date.
   */
  function MarkSold(c: StockConfig, i: nat, soldPrice: int, date: string): (r: StockConfig)
    requires i < |c.purchases|
    ensures |r.purchases| == |c.purchases|
    ensures forall j :: 0 <= j < |c.purchases| && j != i ==> r.purchases[j] == c.purchases[j]
    ensures r.purchases[i].status == SOLD
    ensures r.purchases[i].soldPrice == Some(soldPrice) && r.purchases[i].soldDate == Some(date)
    ensures r.purchases[i] == c.purchases[i].(status := r.purchases[i].status,
      soldPrice := r.purchases[i].soldPrice, soldDate := r.purchases[i].soldDate)
    ensures r == c.(purchases := r.purchases)
  {
    var p := c.purchases[i].(status := SOLD, soldPrice := Some(soldPrice), soldDate := Some(date));
    c.(purchases := c.purchases[i := p])
  }

  /** Selling a round removes exactly it from the held set; the current round cannot rise. */
  lemma MarkSoldReleases(c: StockConfig, i: nat, soldPrice: int, date: string)
    requires i < |c.purchases|
    ensures var c' := MarkSold(c, i, soldPrice, date);
      && (forall x :: HeldAt(c'.purchases, x) <==> HeldAt(c.purchases, x) && x != i)
      && (CurrentRound(c) > 0 ==> CurrentRound(c') <= CurrentRound(c))
  {
    var c' := MarkSold(c, i, soldPrice, date);
    assert forall x :: HeldAt(c'.purchases, x) <==> HeldAt(c.purchases, x) && x != i;
    if CurrentRound(c) > 0 && exists x :: HeldAt(c'.purchases, x) {
      var y :| HeldAt(c'.purchases, y) && c'.purchases[y].round == CurrentRound(c');
      assert HeldAt(c.purchases, y);
    }
  }
}
