/**
 The purchase ledger of one instrument: the `Purchase` and `StockConfig` records
 and the values derived from them (held rounds in order, current and maximum
 round, held quantity, invested amount, average price).

 Python's `sorted(..., key=round)` is stable, so the held purchases come out
 ordered by round and, within one round, by their position in the list. The
 model therefore represents "the held purchases" as the list of their
 POSITIONS in `purchases`, strictly increasing in the pair (round, position).
 Positions also give each purchase the identity that `mark_sold` relies on.
 */
module Ledger {
  import opened Base

  const HOLDING: string := "holding"
  const SOLD: string := "sold"

  /** One buy ("round") of an instrument. `status` is free text as stored. */
  datatype Purchase = Purchase(
    id: Option<string>,
    round: int,
    price: int,
    quantity: int,
    date: string,
    status: string,
    soldPrice: Option<int>,
    soldDate: Option<string>)

  /** Per-instrument configuration plus its ledger. Times are microseconds. */
  datatype StockConfig = StockConfig(
    id: Option<string>,
    code: string,
    name: string,
    isActive: bool,
    buyAmount: int,
    splitRates: seq<real>,
    targetRates: seq<real>,
    purchases: seq<Purchase>,
    lastOrderTime: Option<int>)

  predicate IsHolding(p: Purchase)
  {
    p.status == HOLDING
  }

  /** Position `x` of `ps` exists and is held. */
  predicate HeldAt(ps: seq<Purchase>, x: int)
  {
    0 <= x < |ps| && IsHolding(ps[x])
  }

  /** Position `i` comes before position `j` in the held order. */
  predicate Before(ps: seq<Purchase>, i: nat, j: nat)
    requires i < |ps| && j < |ps|
  {
    ps[i].round < ps[j].round || (ps[i].round == ps[j].round && i < j)
  }

  predicate InRange(ps: seq<Purchase>, s: seq<nat>)
  {
    forall k :: 0 <= k < |s| ==> s[k] < |ps|
  }

  /** `s` lists positions of `ps` strictly increasing by (round, position). */
  predicate Ordered(ps: seq<Purchase>, s: seq<nat>)
  {
    && InRange(ps, s)
    && forall a, b :: 0 <= a < b < |s| ==> Before(ps, s[a], s[b])
  }

  /** Inserts position `i` into an ordered list, after everything before it. */
  function Insert(ps: seq<Purchase>, s: seq<nat>, i: nat): (r: seq<nat>)
    requires i < |ps| && Ordered(ps, s) && i !in s
    ensures Ordered(ps, r)
    ensures |r| == |s| + 1
    ensures forall x :: x in r <==> x in s || x == i
  {
    if |s| == 0 then [i]
    else if Before(ps, i, s[0]) then [i] + s
    else
      var t := Insert(ps, s[1..], i);
      assert forall x :: x in t ==> Before(ps, s[0], x) by {
        forall x | x in t ensures Before(ps, s[0], x) {
          if x != i {
            var b :| 0 <= b < |s[1..]| && s[1..][b] == x;
            assert s[b + 1] == x;
          }
        }
      }
      [s[0]] + t
  }

  /** The held positions among the first `n` purchases, in held order. */
  function HeldAmong(ps: seq<Purchase>, n: nat): (r: seq<nat>)
    requires n <= |ps|
    ensures Ordered(ps, r)
    ensures forall x :: x in r <==> x < n && HeldAt(ps, x)
  {
    if n == 0 then []
    else
      var s := HeldAmong(ps, n - 1);
      if IsHolding(ps[n - 1]) then Insert(ps, s, n - 1) else s
  }

  /**
   `holding_purchases`: exactly the purchases whose status is "holding",
   ordered by round (ties in list order).
   */
  function Held(c: StockConfig): (r: seq<nat>)
    ensures Ordered(c.purchases, r)
    ensures forall x :: x in r <==> HeldAt(c.purchases, x)
  {
    HeldAmong(c.purchases, |c.purchases|)
  }

  /** An ordered list is determined by its elements: the held order is unique. */
  lemma {:induction false} OrderedUnique(ps: seq<Purchase>, s: seq<nat>, t: seq<nat>)
    requires Ordered(ps, s) && Ordered(ps, t)
    requires forall x :: x in s <==> x in t
    ensures s == t
  {
    if |s| > 0 {
      assert s[0] in t;
    }
    if |t| > 0 {
      assert t[0] in s;
    }
    if |s| > 0 {
      OrderedHeadIsLeast(ps, s);
      OrderedHeadIsLeast(ps, t);
      assert s[0] == t[0];
      forall x ensures x in s[1..] <==> x in t[1..] {
        OrderedTailMembers(ps, s, x);
        OrderedTailMembers(ps, t, x);
      }
      OrderedUnique(ps, s[1..], t[1..]);
      assert s == [s[0]] + s[1..] && t == [t[0]] + t[1..];
    }
  }

  lemma OrderedHeadIsLeast(ps: seq<Purchase>, s: seq<nat>)
    requires Ordered(ps, s) && |s| > 0
    ensures forall x :: x in s && x != s[0] ==> Before(ps, s[0], x)
  {
  }

  lemma HeadAndTail(s: seq<nat>)
    requires |s| > 0
    ensures forall x :: x in s <==> x == s[0] || x in s[1..]
  {
    assert s == [s[0]] + s[1..];
  }

  /** In an ordered list every position after the head comes after it. */
  lemma OrderedTailAfterHead(ps: seq<Purchase>, s: seq<nat>)
    requires |s| > 0
    ensures Ordered(ps, s) ==> forall x :: x in s[1..] ==> Before(ps, s[0], x)
  {
    if Ordered(ps, s) {
      forall x | x in s[1..] ensures Before(ps, s[0], x) {
        var b :| 0 <= b < |s[1..]| && s[1..][b] == x;
        assert s[b + 1] == x;
      }
    }
  }

  lemma OrderedTailMembers(ps: seq<Purchase>, s: seq<nat>, x: nat)
    requires Ordered(ps, s) && |s| > 0
    ensures x in s[1..] <==> x in s && x != s[0]
  {
    if x in s[1..] {
      var b :| 0 <= b < |s[1..]| && s[1..][b] == x;
      assert Before(ps, s[0], s[b + 1]);
    }
    if x in s && x != s[0] {
      var b :| 0 <= b < |s| && s[b] == x;
      assert s[1..][b - 1] == x;
    }
  }

  /** The last held purchase (`get_last_purchase`), as a position. */
  function LastHeld(c: StockConfig): (r: Option<nat>)
    ensures r.None? <==> forall x :: !HeldAt(c.purchases, x)
    ensures r.Some? ==> r.value < |c.purchases| && IsHolding(c.purchases[r.value])
    ensures r.Some? ==> forall x :: HeldAt(c.purchases, x) && x != r.value ==>
      Before(c.purchases, x, r.value)
  {
    var h := Held(c);
    if |h| == 0 then None
    else
      assert h[|h| - 1] in h;
      assert forall x :: x in h && x != h[|h| - 1] ==> Before(c.purchases, x, h[|h| - 1]) by {
        forall x | x in h && x != h[|h| - 1] ensures Before(c.purchases, x, h[|h| - 1]) {
          var a :| 0 <= a < |h| && h[a] == x;
        }
      }
      Some(h[|h| - 1])
  }

  /** `current_round`: the largest held round, 0 when nothing is held. */
  function CurrentRound(c: StockConfig): (r: int)
    ensures (forall x :: !HeldAt(c.purchases, x)) ==> r == 0
    ensures (exists x :: HeldAt(c.purchases, x)) ==>
      && (exists x :: HeldAt(c.purchases, x) && c.purchases[x].round == r)
      && (forall x :: HeldAt(c.purchases, x) ==> c.purchases[x].round <= r)
  {
    match LastHeld(c)
    case None => 0
    case Some(i) => c.purchases[i].round
  }

  /** `max_round`: one first round plus one round per split rate. */
  function MaxRound(c: StockConfig): (r: int)
    ensures r >= 1 && r - 1 == |c.splitRates|
  {
    |c.splitRates| + 1
  }

  /** Sum of `f` over the purchases at the listed positions. */
  function SumAt(ps: seq<Purchase>, s: seq<nat>, f: Purchase -> int): int
    requires InRange(ps, s)
  {
    if |s| == 0 then 0 else f(ps[s[0]]) + SumAt(ps, s[1..], f)
  }

  /** Reference definition: sum of `f` over the held purchases among the first `n`, in list order. */
  function SumHeldPrefix(ps: seq<Purchase>, n: nat, f: Purchase -> int): int
    requires n <= |ps|
  {
    if n == 0 then 0
    else SumHeldPrefix(ps, n - 1, f) + (if IsHolding(ps[n - 1]) then f(ps[n - 1]) else 0)
  }

  lemma {:induction false} SumAtInsert(ps: seq<Purchase>, s: seq<nat>, i: nat, f: Purchase -> int)
    requires i < |ps| && Ordered(ps, s) && i !in s
    ensures SumAt(ps, Insert(ps, s, i), f) == SumAt(ps, s, f) + f(ps[i])
  {
    if |s| > 0 && !Before(ps, i, s[0]) {
      SumAtInsert(ps, s[1..], i, f);
    }
  }

  /** Summing over the held order equals summing the held purchases in list order. */
  lemma {:induction false} SumHeldAmong(ps: seq<Purchase>, n: nat, f: Purchase -> int)
    requires n <= |ps|
    ensures SumAt(ps, HeldAmong(ps, n), f) == SumHeldPrefix(ps, n, f)
  {
    if n > 0 {
      SumHeldAmong(ps, n - 1, f);
      if IsHolding(ps[n - 1]) {
        SumAtInsert(ps, HeldAmong(ps, n - 1), n - 1, f);
      }
    }
  }

  function Quantity(p: Purchase): int { p.quantity }

  function Cost(p: Purchase): int { p.price * p.quantity }

  /** `total_quantity`: quantity summed over held purchases only. */
  function TotalQuantity(c: StockConfig): (r: int)
    ensures r == SumHeldPrefix(c.purchases, |c.purchases|, Quantity)
  {
    SumHeldAmong(c.purchases, |c.purchases|, Quantity);
    SumAt(c.purchases, Held(c), Quantity)
  }

  /** `total_invested`: price times quantity summed over held purchases only. */
  function TotalInvested(c: StockConfig): (r: int)
    ensures r == SumHeldPrefix(c.purchases, |c.purchases|, Cost)
  {
    SumHeldAmong(c.purchases, |c.purchases|, Cost);
    SumAt(c.purchases, Held(c), Cost)
  }

  /** `avg_price`: invested / quantity over held purchases; 0 without holdings or quantity. */
  function AvgPrice(c: StockConfig): (r: real)
    ensures |Held(c)| == 0 ==> r == 0.0
    ensures TotalQuantity(c) <= 0 ==> r == 0.0
    ensures TotalQuantity(c) > 0 ==> r * TotalQuantity(c) as real == TotalInvested(c) as real
  {
    var h := Held(c);
    if |h| == 0 then 0.0
    else
      var amount := SumAt(c.purchases, h, Cost);
      var qty := SumAt(c.purchases, h, Quantity);
      if qty > 0 then amount as real / qty as real else 0.0
  }

  /** With positive quantities, the average lies between the lowest and highest held price. */
  lemma AvgPriceBounds(c: StockConfig, lo: int, hi: int)
    requires forall x :: HeldAt(c.purchases, x) ==>
      c.purchases[x].quantity > 0 && lo <= c.purchases[x].price <= hi
    requires exists x :: HeldAt(c.purchases, x)
    ensures lo as real <= AvgPrice(c) <= hi as real
  {
    var ps := c.purchases;
    var h := Held(c);
    CostBounds(ps, h, lo, hi);
    var x :| HeldAt(ps, x);
    assert x in h;
    assert |h| > 0;
    var amount := SumAt(ps, h, Cost);
    var qty := SumAt(ps, h, Quantity);
    assert AvgPrice(c) == amount as real / qty as real;
    QuotientBounds(amount, qty, lo, hi);
  }

  lemma QuotientBounds(a: int, q: int, lo: int, hi: int)
    requires q > 0 && lo * q <= a <= hi * q
    ensures lo as real <= a as real / q as real <= hi as real
  {
    assert (lo * q) as real == lo as real * q as real;
    assert (hi * q) as real == hi as real * q as real;
  }

  lemma {:induction false} CostBounds(ps: seq<Purchase>, s: seq<nat>, lo: int, hi: int)
    requires InRange(ps, s)
    requires forall k :: 0 <= k < |s| ==> ps[s[k]].quantity > 0 && lo <= ps[s[k]].price <= hi
    ensures lo * SumAt(ps, s, Quantity) <= SumAt(ps, s, Cost) <= hi * SumAt(ps, s, Quantity)
    ensures |s| > 0 ==> SumAt(ps, s, Quantity) > 0
  {
    if |s| > 0 {
      CostBounds(ps, s[1..], lo, hi);
      var p := ps[s[0]];
      ScaleBounds(lo, p.price, hi, p.quantity);
      AddBounds(lo, hi, p.quantity, Cost(p), SumAt(ps, s[1..], Quantity), SumAt(ps, s[1..], Cost));
    }
  }

  lemma ScaleBounds(lo: int, x: int, hi: int, q: int)
    requires lo <= x <= hi && q > 0
    ensures lo * q <= x * q <= hi * q
  {
  }

  lemma AddBounds(lo: int, hi: int, q1: int, c1: int, q2: int, c2: int)
    requires lo * q1 <= c1 <= hi * q1 && lo * q2 <= c2 <= hi * q2
    ensures lo * (q1 + q2) <= c1 + c2 <= hi * (q1 + q2)
  {
    assert lo * (q1 + q2) == lo * q1 + lo * q2;
    assert hi * (q1 + q2) == hi * q1 + hi * q2;
  }
}
