/**
 Worked ledgers: a buy at the split price and a per-round sale, the reuse of
 a round number after the top round is sold, and the gap left when a lower
 round is sold first.
 */
module Scenarios {
  import opened Base
  import opened Ledger
  import opened Strategy

  function Bought(round: int, price: int, quantity: int): Purchase
  {
    Purchase(None, round, price, quantity, "2024-01-02 09:00:00", HOLDING, None, None)
  }

  /** One round bought at 10 000, a 10 % split step and 5 % targets. */
  function Opening(): StockConfig
  {
    StockConfig(None, "005930", "Samsung Electronics", true, 100_000,
                [10.0], [5.0, 5.0], [Bought(1, 10_000, 10)], None)
  }

  /** The second round triggers at 9 000 and buys 11 shares with the default amount. */
  lemma SecondRoundTrigger(now: int)
    ensures Held(Opening()) == [0] && CurrentRound(Opening()) == 1
    ensures NextSplitPrice(Opening()) == Value(Some(9_000))
    ensures ShouldBuy(Opening(), 9_000, now) == Value(true)
    ensures ShouldBuy(Opening(), 9_001, now) == Value(false)
    ensures BuyQuantity(Opening(), 9_000) == 11
  {
    var c := Opening();
    assert HeldAmong(c.purchases, 0) == [];
    assert Held(c) == [0];
    assert LastHeld(c) == Some(0);
  }

  /**
   After the second round is bought at 9 000 the maximum round is reached, and
   a tick at 9 450 sells exactly the second round (round 1 waits for 10 500).
   */
  lemma SecondRoundSells(now: int)
    ensures var c := AddPurchase(Opening(), 9_000, 11, None, "2024-01-02 10:00:00", now).0;
      && Held(c) == [0, 1]
      && CurrentRound(c) == 2
      && ShouldBuy(c, 1, now + ORDER_COOLDOWN) == Value(false)
      && PurchaseTarget(c, 0) == Some(10_500)
      && PurchaseTarget(c, 1) == Some(9_450)
      && ShouldSell(c, 9_449) == Value([])
      && ShouldSell(c, 9_450) == Value([1])
      && ShouldSell(c, 10_500) == Value([0, 1])
  {
    var c := AddPurchase(Opening(), 9_000, 11, None, "2024-01-02 10:00:00", now).0;
    AddPurchaseAdvancesRound(Opening(), 9_000, 11, None, "2024-01-02 10:00:00", now);
    SecondRoundTrigger(now);
    assert Held(c) == [0, 1];
    assert PurchaseTarget(c, 0) == Some(10_500);
    assert PurchaseTarget(c, 1) == Some(9_450);
    var h: seq<nat> := [0, 1];
    assert h[1..] == [1] && h[1..][1..] == [];
    SellableOne(c, 1, 9_449);
    SellableOne(c, 1, 9_450);
    SellableOne(c, 1, 10_500);
  }

  lemma SellableOne(c: StockConfig, x: nat, p: int)
    requires x < |c.purchases| && PurchaseTarget(c, x).Some?
    ensures p >= PurchaseTarget(c, x).value ==> SellableIn(c, [x], p) == Value([x])
    ensures p < PurchaseTarget(c, x).value ==> SellableIn(c, [x], p) == Value([])
  {
    var s: seq<nat> := [x];
    var none: seq<nat> := [];
    assert s[1..] == none;
    assert SellableIn(c, s[1..], p) == Value(none);
    assert [s[0]] + none == s;
  }

  /**
   A purchase whose price times target rate is under 100 has a target equal to
   its own price: it is sellable at the price it was bought for.
   */
  lemma SmallPriceTargetIsPrice(price: int, rate: real)
    requires 0 <= price && 0.0 <= rate && price as real * rate < 100.0
    ensures TargetPrice(price, rate) == price
  {
    var x := price as real * (1.0 + rate / 100.0);
    assert x == price as real + price as real * rate / 100.0;
  }

  /** Two rounds held: round 1 at 10 000 and round 2 at 9 000. */
  function TwoRounds(): StockConfig
  {
    Opening().(purchases := [Bought(1, 10_000, 10), Bought(2, 9_000, 11)])
  }

  /** Selling the top round and buying again numbers the new purchase 2 a second time. */
  lemma RoundNumberReuse(now: int)
    ensures var sold := MarkSold(TwoRounds(), 1, 9_450, "2024-01-03 09:00:00");
      && CurrentRound(sold) == 1
      && var again := AddPurchase(sold, 9_000, 11, None, "2024-01-04 09:00:00", now).0;
      && again.purchases[1].round == 2 && again.purchases[2].round == 2
      && again.purchases[1].status == SOLD && IsHolding(again.purchases[2])
  {
    var sold := MarkSold(TwoRounds(), 1, 9_450, "2024-01-03 09:00:00");
    assert HeldAmong(sold.purchases, 1) == [0];
    assert Held(sold) == [0];
    assert LastHeld(sold) == Some(0);
  }

  /** Selling round 1 while round 2 is held leaves a gap: the next buy is round 3. */
  lemma RoundGap(now: int)
    ensures var sold := MarkSold(TwoRounds(), 0, 10_500, "2024-01-03 09:00:00");
      && Held(sold) == [1]
      && CurrentRound(sold) == 2
      && AddPurchase(sold, 8_100, 12, None, "2024-01-04 09:00:00", now).1.round == 3
  {
    var sold := MarkSold(TwoRounds(), 0, 10_500, "2024-01-03 09:00:00");
    assert HeldAmong(sold.purchases, 1) == [];
    assert Held(sold) == [1];
    assert LastHeld(sold) == Some(1);
  }
}
