/**
 The tick handler of the bot: the market-hours window, the throttled
 enabled-flag query, and the guard sequence of a price update with the ledger
 effects of buy and sell orders. The broker, the database and the clock are
 parameters; notifications are left out.
 */
module Bot {
  import opened Base
  import opened Ledger
  import opened Strategy
  import opened Registry

  // ---------------------------------------------------------------------------
  // market hours
  // ---------------------------------------------------------------------------

  /** A wall-clock time of day, as Python's `datetime.time`. */
  datatype TimeOfDay = TimeOfDay(hour: int, minute: int, second: int, micro: int)

  /** A local timestamp: weekday (Monday = 0) and time of day. */
  datatype LocalTime = LocalTime(weekday: int, clock: TimeOfDay)

  predicate ValidClock(t: TimeOfDay)
  {
    0 <= t.hour < 24 && 0 <= t.minute < 60 && 0 <= t.second < 60 && 0 <= t.micro < 1_000_000
  }

  predicate ValidTime(t: LocalTime)
  {
    0 <= t.weekday < 7 && ValidClock(t.clock)
  }

  const MARKET_OPEN: TimeOfDay := TimeOfDay(9, 0, 0, 0)
  const MARKET_CLOSE: TimeOfDay := TimeOfDay(15, 30, 0, 0)

  /** Microseconds since midnight. */
  function MicrosOfDay(t: TimeOfDay): int
  {
    t.hour * 3_600_000_000 + t.minute * 60_000_000 + t.second * 1_000_000 + t.micro
  }

  /** Python's ordering of `time` values: field by field. */
  predicate ClockLe(a: TimeOfDay, b: TimeOfDay)
  {
    if a.hour != b.hour then a.hour < b.hour
    else if a.minute != b.minute then a.minute < b.minute
    else if a.second != b.second then a.second < b.second
    else a.micro <= b.micro
  }

  /** The field-by-field order is the order of the instants within the day. */
  lemma ClockOrder(a: TimeOfDay, b: TimeOfDay)
    requires ValidClock(a) && ValidClock(b)
    ensures ClockLe(a, b) <==> MicrosOfDay(a) <= MicrosOfDay(b)
  {
  }

  /** `is_market_open`: a weekday, between 09:00 and 15:30, both ends included. */
  function IsMarketOpen(t: LocalTime): (r: bool)
    requires ValidTime(t)
    ensures r <==> t.weekday < 5 && MicrosOfDay(MARKET_OPEN) <= MicrosOfDay(t.clock) <= MicrosOfDay(MARKET_CLOSE)
  {
    ClockOrder(MARKET_OPEN, t.clock);
    ClockOrder(t.clock, MARKET_CLOSE);
    if t.weekday >= 5 then false
    else ClockLe(MARKET_OPEN, t.clock) && ClockLe(t.clock, MARKET_CLOSE)
  }

  /** The last open instant is 15:30:00.000000; one microsecond later the market is closed. */
  lemma MarketCloseInclusive(weekday: int)
    requires 0 <= weekday < 5
    ensures IsMarketOpen(LocalTime(weekday, TimeOfDay(15, 30, 0, 0)))
    ensures !IsMarketOpen(LocalTime(weekday, TimeOfDay(15, 30, 0, 1)))
    ensures IsMarketOpen(LocalTime(weekday, TimeOfDay(9, 0, 0, 0)))
    ensures !IsMarketOpen(LocalTime(weekday, TimeOfDay(8, 59, 59, 999_999)))
  {
  }

  // ---------------------------------------------------------------------------
  // enabled flag
  // ---------------------------------------------------------------------------

  /** Minimum time between two reads of the bot configuration (10 s). */
  const CONFIG_CHECK_INTERVAL: int := 10 * MICROS_PER_SECOND

  datatype Toggle = Toggle(enabled: bool, lastCheck: Option<int>)

  datatype ToggleResult = ToggleResult(toggle: Toggle, enabled: bool, queried: bool)

  /** Python truthiness of the configuration row: present and non-empty. */
  predicate ConfigPresent(reply: Option<map<string, bool>>)
  {
    reply.Some? && |reply.value| > 0
  }

  /**
   `check_bot_enabled`: within ten seconds of the last check the cached flag is
   returned without a query; otherwise the check time is stamped, and a present
   configuration row sets the flag (`is_running`, default false).
   */
  function CheckBotEnabled(t: Toggle, now: int, reply: Option<map<string, bool>>): (r: ToggleResult)
    ensures r.enabled == r.toggle.enabled
    ensures !r.queried <==> t.lastCheck.Some? && now - t.lastCheck.value < CONFIG_CHECK_INTERVAL
    ensures !r.queried ==> r.toggle == t
    ensures r.queried ==> r.toggle.lastCheck == Some(now)
    ensures r.queried && !ConfigPresent(reply) ==> r.enabled == t.enabled
    ensures r.queried && ConfigPresent(reply) ==>
      (r.enabled <==> "is_running" in reply.value && reply.value["is_running"])
  {
    if t.lastCheck.Some? && now - t.lastCheck.value < CONFIG_CHECK_INTERVAL then
      ToggleResult(t, t.enabled, false)
    else
      var enabled := if ConfigPresent(reply) then
                       (if "is_running" in reply.value then reply.value["is_running"] else false)
                     else t.enabled;
      ToggleResult(Toggle(enabled, Some(now)), enabled, true)
  }

  /** After a query, calls during the next ten seconds answer the same without querying. */
  lemma ThrottleWindow(t: Toggle, now: int, reply: Option<map<string, bool>>,
                       later: int, reply2: Option<map<string, bool>>)
    requires CheckBotEnabled(t, now, reply).queried
    requires now <= later < now + CONFIG_CHECK_INTERVAL
    ensures var first := CheckBotEnabled(t, now, reply);
      var second := CheckBotEnabled(first.toggle, later, reply2);
      !second.queried && second.enabled == first.enabled && second.toggle == first.toggle
  {
  }

  /** A configuration row without `is_running` disables the bot. */
  lemma MissingFlagDisables(t: Toggle, now: int, m: map<string, bool>)
    requires |m| > 0 && "is_running" !in m
    requires t.lastCheck.None?
    ensures !CheckBotEnabled(t, now, Some(m)).enabled
  {
  }

  // ---------------------------------------------------------------------------
  // orders
  // ---------------------------------------------------------------------------

  /** The instant of a tick: microsecond count, local clock reading and its `%Y-%m-%d %H:%M:%S` text. */
  datatype Clock = Clock(micros: int, local: LocalTime, stamp: string)

  /**
   The answers of the outside world for one tick: the configuration row, the
   buy order's success, whether the database is configured and the id it
   assigns, and the success of the k-th sell order.
   */
  datatype World = World(
    configReply: Option<map<string, bool>>,
    buyOk: bool,
    dbEnabled: bool,
    savedId: Option<string>,
    sellOk: nat -> bool)

  /** The id the bought purchase ends up with: the database's, when it is configured and answers. */
  function SavedPurchaseId(c: StockConfig, w: World): (r: Option<string>)
    ensures r.Some? <==> w.dbEnabled && Truthy(c.id) && Truthy(w.savedId)
    ensures r.Some? ==> r == w.savedId
  {
    if w.dbEnabled && Truthy(c.id) && Truthy(w.savedId) then w.savedId else None
  }

  /**
   `execute_buy`: a successful order appends a held purchase at the tick price
   and quantity and starts the cooldown; a failed order changes nothing.
   */
  function ExecuteBuy(c: StockConfig, it: BuyIntent, clock: Clock, w: World): (r: StockConfig)
    requires it.Buy?
    ensures !w.buyOk ==> r == c
    ensures w.buyOk ==>
      && |r.purchases| == |c.purchases| + 1
      && r.purchases[..|c.purchases|] == c.purchases
      && var np := r.purchases[|c.purchases|];
      && IsHolding(np) && np.round == CurrentRound(c) + 1
      && np.price == it.price && np.quantity == it.quantity
      && np.id == SavedPurchaseId(c, w) && np.date == clock.stamp
      && Held(r) == Held(c) + [|c.purchases|]
      && CurrentRound(r) == CurrentRound(c) + 1
      && r == c.(purchases := r.purchases, lastOrderTime := Some(clock.micros))
  {
    if !w.buyOk then c
    else
      AddPurchaseAdvancesRound(c, it.price, it.quantity, SavedPurchaseId(c, w), clock.stamp, clock.micros);
      var added := AddPurchase(c, it.price, it.quantity, SavedPurchaseId(c, w), clock.stamp, clock.micros).0;
      assert added.purchases[..|c.purchases|] == c.purchases;
      added
  }

  /** The index of the last successful sell order among the first `n` that names position `j`. */
  function LastSale(intents: seq<SellIntent>, n: nat, ok: nat -> bool, j: nat): (r: Option<nat>)
    requires n <= |intents|
    ensures r.Some? ==> r.value < n && ok(r.value) && intents[r.value].position == j
    ensures r.Some? ==> forall k :: r.value < k < n ==> !(ok(k) && intents[k].position == j)
    ensures r.None? <==> forall k :: 0 <= k < n ==> !(ok(k) && intents[k].position == j)
  {
    if n == 0 then None
    else if ok(n - 1) && intents[n - 1].position == j then Some(n - 1)
    else LastSale(intents, n - 1, ok, j)
  }

  /** A purchase sold at `price` on `date`. */
  function SoldAt(p: Purchase, price: int, date: string): Purchase
  {
    p.(status := SOLD, soldPrice := Some(price), soldDate := Some(date))
  }

  /**
   The sell orders of one tick, executed in order: each successful order marks
   its purchase sold at the intent's price; failed ones change nothing.
   */
  function ExecuteSells(c: StockConfig, intents: seq<SellIntent>, n: nat, ok: nat -> bool, date: string): (r: StockConfig)
    requires n <= |intents|
    requires forall k :: 0 <= k < |intents| ==> intents[k].position < |c.purchases|
    ensures r == c.(purchases := r.purchases) && |r.purchases| == |c.purchases|
    ensures forall j :: 0 <= j < |c.purchases| ==>
      match LastSale(intents, n, ok, j)
      case None => r.purchases[j] == c.purchases[j]
      case Some(k) => r.purchases[j] == SoldAt(c.purchases[j], intents[k].price, date)
    decreases n
  {
    if n == 0 then c
    else
      var prev := ExecuteSells(c, intents, n - 1, ok, date);
      if ok(n - 1) then MarkSold(prev, intents[n - 1].position, intents[n - 1].price, date)
      else prev
  }

  /** What a tick led to. */
  datatype Outcome =
    | Ignored                                   // no code or a zero price
    | Gated                                     // bot disabled or market closed
    | Handled(bought: bool, orders: seq<nat>)   // positions for which sell orders were placed
    | Crashed(error: Exception)                 // a strategy check raised; later steps were skipped

  /** A ledger changed by one tick at price `p`: at most one purchase appended, earlier ones kept or sold at `p` after reaching their target. */
  predicate LedgerStep(c: StockConfig, c': StockConfig, p: int, date: string)
  {
    && (|c'.purchases| == |c.purchases| || |c'.purchases| == |c.purchases| + 1)
    && c' == c.(purchases := c'.purchases, lastOrderTime := c'.lastOrderTime)
    && forall j :: 0 <= j < |c.purchases| ==>
      || c'.purchases[j] == c.purchases[j]
      || (HeldAt(c.purchases, j) && Reaches(c, j, p) && c'.purchases[j] == SoldAt(c.purchases[j], p, date))
  }

  /** A ledger left alone is a ledger step. */
  lemma LedgerStays(c: StockConfig, p: int, date: string)
    ensures LedgerStep(c, c, p, date)
  {
  }

  /** The positions named by a list of sell intents. */
  function Positions(intents: seq<SellIntent>): (r: seq<nat>)
    ensures |r| == |intents| && forall k :: 0 <= k < |r| ==> r[k] == intents[k].position
  {
    seq(|intents|, k requires 0 <= k < |intents| => intents[k].position)
  }

  /** Appending one purchase keeps the targets of the earlier ones. */
  lemma ReachesKept(c: StockConfig, c': StockConfig, j: nat, p: int)
    requires j < |c.purchases| <= |c'.purchases|
    requires c'.purchases[j] == c.purchases[j] && c'.targetRates == c.targetRates
    ensures Reaches(c', j, p) <==> Reaches(c, j, p)
  {
  }

  /** Sell orders for held positions that reach their target, all at `p`, only ever sell those at `p`. */
  lemma SellsSettle(c: StockConfig, intents: seq<SellIntent>, ok: nat -> bool, p: int, date: string)
    requires forall k :: 0 <= k < |intents| ==>
      intents[k].position < |c.purchases| && HeldAt(c.purchases, intents[k].position)
      && Reaches(c, intents[k].position, p) && intents[k].price == p
    ensures var c' := ExecuteSells(c, intents, |intents|, ok, date);
      forall j :: 0 <= j < |c.purchases| ==>
        || c'.purchases[j] == c.purchases[j]
        || (HeldAt(c.purchases, j) && Reaches(c, j, p) && c'.purchases[j] == SoldAt(c.purchases[j], p, date))
    ensures var c' := ExecuteSells(c, intents, |intents|, ok, date);
      forall k :: 0 <= k < |intents| && ok(k) ==>
        c'.purchases[intents[k].position] == SoldAt(c.purchases[intents[k].position], p, date)
    ensures var c' := ExecuteSells(c, intents, |intents|, ok, date);
      forall j :: 0 <= j < |c.purchases| && (forall k :: 0 <= k < |intents| ==> !(ok(k) && intents[k].position == j)) ==>
        c'.purchases[j] == c.purchases[j]
  {
    var c' := ExecuteSells(c, intents, |intents|, ok, date);
    forall j | 0 <= j < |c.purchases|
      ensures || c'.purchases[j] == c.purchases[j]
              || (HeldAt(c.purchases, j) && Reaches(c, j, p) && c'.purchases[j] == SoldAt(c.purchases[j], p, date))
    {
      match LastSale(intents, |intents|, ok, j)
      case None =>
      case Some(k) =>
        assert intents[k].position == j;
    }
    forall k | 0 <= k < |intents| && ok(k)
      ensures c'.purchases[intents[k].position] == SoldAt(c.purchases[intents[k].position], p, date)
    {
      var j := intents[k].position;
      assert LastSale(intents, |intents|, ok, j).Some?;
    }
  }

  /**
   Whether the sell check raises on ledger `c` at `p`: a held round with no
   target rate to index, or a zero purchase price among the rounds to sell.
   */
  predicate SellCheckRaises(c: StockConfig, p: int)
  {
    || ShouldSell(c, p).Raised?
    || exists k :: 0 <= k < |ShouldSell(c, p).value| && FreeAt(c.purchases, ShouldSell(c, p).value[k])
  }

  /**
   The sell half took ledger `c` to `c'` with outcome `o`: it crashes, leaving
   the ledger alone, exactly when the sell check raises; otherwise it places
   one order per `should_sell` round, each successful order sells its round at
   `p`, and a round without a successful order is untouched.
   */
  predicate SellsSettled(c: StockConfig, c': StockConfig, p: int, date: string, ok: nat -> bool, o: Outcome)
  {
    && c' == c.(purchases := c'.purchases) && |c'.purchases| == |c.purchases|
    && (o.Crashed? <==> SellCheckRaises(c, p))
    && (o.Crashed? ==> c' == c)
    && (!o.Crashed? ==> o.Handled? && ShouldSell(c, p).Value? && o.orders == ShouldSell(c, p).value)
    && (o.Handled? ==> forall k :: 0 <= k < |o.orders| && ok(k) ==>
          o.orders[k] < |c.purchases| && c'.purchases[o.orders[k]] == SoldAt(c.purchases[o.orders[k]], p, date))
    && (o.Handled? ==> forall j :: 0 <= j < |c.purchases| && (forall k :: 0 <= k < |o.orders| ==> !(ok(k) && o.orders[k] == j)) ==>
          c'.purchases[j] == c.purchases[j])
  }

  /** Whether a buy happened earlier in the tick does not change what the sell half did. */
  lemma SettledWithBuy(c: StockConfig, c': StockConfig, p: int, date: string, ok: nat -> bool, o: Outcome, bought: bool)
    requires SellsSettled(c, c', p, date, ok, o)
    ensures SellsSettled(c, c', p, date, ok, if o.Handled? then Handled(bought, o.orders) else o)
  {
  }

  /**
   The sell half of a tick on the ledger `mid` left by the buy half: every
   position `should_sell` lists gets an order; each successful one is sold at
   the tick price.
   */
  function SellHalf(s: SplitStrategy, code: string, p: int, clock: Clock, w: World): (r: (SplitStrategy, Outcome))
    requires code in s.stocks
    ensures r.0.stocks.Keys == s.stocks.Keys
    ensures forall k :: k in s.stocks && k != code ==> r.0.stocks[k] == s.stocks[k]
    ensures r.1.Crashed? ==> r.0 == s
    ensures r.1.Handled? ==> !r.1.bought
    ensures SellsSettled(s.stocks[code], r.0.stocks[code], p, clock.stamp, w.sellOk, r.1)
    ensures var c := s.stocks[code]; var c' := r.0.stocks[code];
      && c' == c.(purchases := c'.purchases)
      && |c'.purchases| == |c.purchases|
      && forall j :: 0 <= j < |c.purchases| ==>
        || c'.purchases[j] == c.purchases[j]
        || (HeldAt(c.purchases, j) && Reaches(c, j, p) && c'.purchases[j] == SoldAt(c.purchases[j], p, clock.stamp))
  {
    var c := s.stocks[code];
    match CheckSell(s, code, p)
    case Raised(e) => (s, Crashed(e))
    case Value(intents) =>
      var c' := ExecuteSells(c, intents, |intents|, w.sellOk, clock.stamp);
      SellsSettle(c, intents, w.sellOk, p, clock.stamp);
      (SplitStrategy(s.stocks[code := c']), Handled(false, Positions(intents)))
  }

  /** The buy half of a tick: `check_buy_condition` and, when it says buy, the order. */
  function BuyHalf(s: SplitStrategy, code: string, p: int, clock: Clock, w: World): (r: Py<(StockConfig, bool)>)
    requires code in s.stocks
    ensures r.Raised? <==> ShouldBuy(s.stocks[code], p, clock.micros).Raised?
    ensures r.Value? ==>
      var c := s.stocks[code]; var mid := r.value.0; var n := |c.purchases|;
      && (r.value.1 <==> ShouldBuy(c, p, clock.micros) == Value(true) && w.buyOk)
      && (!r.value.1 ==> mid == c)
      && (r.value.1 ==>
            && |mid.purchases| == n + 1
            && mid.purchases[..n] == c.purchases
            && mid == c.(purchases := mid.purchases, lastOrderTime := Some(clock.micros))
            && IsHolding(mid.purchases[n])
            && mid.purchases[n].round == CurrentRound(c) + 1
            && mid.purchases[n].price == p
            && mid.purchases[n].quantity == BuyQuantity(c, p))
  {
    var c := s.stocks[code];
    match CheckBuy(s, code, p, clock.micros)
    case Raised(e) => Raised(e)
    case Value(intent) =>
      if intent.Buy? then Value((ExecuteBuy(c, intent, clock, w), w.buyOk)) else Value((c, false))
  }

  /** A ledger grown by at most one purchase and then sold from keeps to `LedgerStep` relative to the original. */
  lemma BuyThenSellStep(c: StockConfig, mid: StockConfig, c': StockConfig, p: int, date: string)
    requires |mid.purchases| == |c.purchases| || |mid.purchases| == |c.purchases| + 1
    requires mid.purchases[..|c.purchases|] == c.purchases
    requires mid == c.(purchases := mid.purchases, lastOrderTime := mid.lastOrderTime)
    requires c' == mid.(purchases := c'.purchases) && |c'.purchases| == |mid.purchases|
    requires forall j :: 0 <= j < |mid.purchases| ==>
      || c'.purchases[j] == mid.purchases[j]
      || (HeldAt(mid.purchases, j) && Reaches(mid, j, p) && c'.purchases[j] == SoldAt(mid.purchases[j], p, date))
    ensures LedgerStep(c, c', p, date)
    ensures forall j :: 0 <= j < |mid.purchases| ==>
      && c'.purchases[j].round == mid.purchases[j].round
      && c'.purchases[j].price == mid.purchases[j].price
      && c'.purchases[j].quantity == mid.purchases[j].quantity
  {
    forall j | 0 <= j < |c.purchases|
      ensures || c'.purchases[j] == c.purchases[j]
              || (HeldAt(c.purchases, j) && Reaches(c, j, p) && c'.purchases[j] == SoldAt(c.purchases[j], p, date))
    {
      assert mid.purchases[j] == mid.purchases[..|c.purchases|][j];
      ReachesKept(c, mid, j, p);
    }
  }

  /**
   The part of `on_price_update` after both gates: the buy check and order
   first, then the sell check on the ledger as the buy left it, then one sell
   order per sellable round.
   */
  function Trade(s: SplitStrategy, code: string, p: int, clock: Clock, w: World): (r: (SplitStrategy, Outcome))
    ensures code !in s.stocks ==> r == (s, Handled(false, []))
    ensures r.0.stocks.Keys == s.stocks.Keys
    ensures forall k :: k in s.stocks && k != code ==> r.0.stocks[k] == s.stocks[k]
    ensures code in s.stocks && ShouldBuy(s.stocks[code], p, clock.micros).Raised? ==>
      r.0 == s && r.1.Crashed?
    ensures code in s.stocks ==>
      var c := s.stocks[code]; var c' := r.0.stocks[code];
      && (|c'.purchases| == |c.purchases| + 1 <==> ShouldBuy(c, p, clock.micros) == Value(true) && w.buyOk)
      && LedgerStep(c, c', p, clock.stamp)
      && (|c'.purchases| == |c.purchases| + 1 ==>
            c'.purchases[|c.purchases|].round == CurrentRound(c) + 1
            && c'.purchases[|c.purchases|].price == p
            && c'.purchases[|c.purchases|].quantity == BuyQuantity(c, p)
            && c'.lastOrderTime == Some(clock.micros))
      && (|c'.purchases| == |c.purchases| ==> c'.lastOrderTime == c.lastOrderTime)
    ensures r.1.Handled? ==> (r.1.bought <==> code in s.stocks && ShouldBuy(s.stocks[code], p, clock.micros) == Value(true) && w.buyOk)
    ensures code in s.stocks && BuyHalf(s, code, p, clock, w).Value? ==>
      SellsSettled(BuyHalf(s, code, p, clock, w).value.0, r.0.stocks[code], p, clock.stamp, w.sellOk, r.1)
  {
    if code !in s.stocks then (s, Handled(false, []))
    else
      var c := s.stocks[code];
      match BuyHalf(s, code, p, clock, w)
      case Raised(e) => (s, Crashed(e))
      case Value(half) =>
        var mid := half.0;
        var s1 := SplitStrategy(s.stocks[code := mid]);
        var r2 := SellHalf(s1, code, p, clock, w);
        BuyThenSellStep(c, mid, r2.0.stocks[code], p, clock.stamp);
        SettledWithBuy(mid, r2.0.stocks[code], p, clock.stamp, w.sellOk, r2.1, half.1);
        (r2.0, if r2.1.Handled? then Handled(half.1, r2.1.orders) else r2.1)
  }

  /** The bot's state between ticks. */
  datatype BotState = BotState(strategy: SplitStrategy, prices: map<string, int>, toggle: Toggle)

  /**
   `on_price_update`: a tick with no code or a zero price is dropped; otherwise
   its price is recorded first, and orders are considered only when the bot is
   enabled and the market is open.
   */
  function OnPriceUpdate(b: BotState, code: string, p: int, clock: Clock, w: World): (r: (BotState, Outcome))
    requires ValidTime(clock.local)
    ensures r.1.Ignored? <==> code == "" || p == 0
    ensures r.1.Ignored? ==> r.0 == b
    ensures !r.1.Ignored? ==> r.0.prices == b.prices[code := p]
    ensures var enabled := CheckBotEnabled(b.toggle, clock.micros, w.configReply).enabled;
      !r.1.Ignored? ==> (r.1.Gated? <==> !enabled || !IsMarketOpen(clock.local))
    ensures r.1.Gated? ==> r.0.strategy == b.strategy
    ensures !r.1.Ignored? ==> r.0.toggle == CheckBotEnabled(b.toggle, clock.micros, w.configReply).toggle
    ensures !r.1.Ignored? && !r.1.Gated? ==> (r.0.strategy, r.1) == Trade(b.strategy, code, p, clock, w)
    ensures !IsMarketOpen(clock.local) ==> r.0.strategy == b.strategy
    ensures r.0.strategy.stocks.Keys == b.strategy.stocks.Keys
    ensures forall k :: k in b.strategy.stocks && k != code ==> r.0.strategy.stocks[k] == b.strategy.stocks[k]
    ensures code in b.strategy.stocks ==>
      LedgerStep(b.strategy.stocks[code], r.0.strategy.stocks[code], p, clock.stamp)
  {
    if code == "" || p == 0 then
      if code in b.strategy.stocks then
        LedgerStays(b.strategy.stocks[code], p, clock.stamp);
        (b, Ignored)
      else (b, Ignored)
    else
      var priced := b.(prices := b.prices[code := p]);
      var check := CheckBotEnabled(b.toggle, clock.micros, w.configReply);
      var checked := priced.(toggle := check.toggle);
      if !check.enabled || !IsMarketOpen(clock.local) then
        if code in b.strategy.stocks then
          LedgerStays(b.strategy.stocks[code], p, clock.stamp);
          (checked, Gated)
        else (checked, Gated)
      else
        var t := Trade(b.strategy, code, p, clock, w);
        (checked.(strategy := t.0), t.1)
  }

  /**
   An enabled bot in market hours, on a tick that triggers no buy and whose
   sell orders all succeed, sells exactly the held rounds that reach their
   target at the tick price and leaves every other purchase as it was.
   */
  lemma TickSellsReachedRounds(b: BotState, code: string, p: int, clock: Clock, w: World)
    requires ValidTime(clock.local) && IsMarketOpen(clock.local)
    requires code != "" && p != 0 && code in b.strategy.stocks
    requires CheckBotEnabled(b.toggle, clock.micros, w.configReply).enabled
    requires ShouldBuy(b.strategy.stocks[code], p, clock.micros) == Value(false)
    requires b.strategy.stocks[code].isActive && CurrentRound(b.strategy.stocks[code]) != 0
    requires SellCheckable(b.strategy.stocks[code])
    requires forall k :: w.sellOk(k)
    ensures var c := b.strategy.stocks[code];
      var c' := OnPriceUpdate(b, code, p, clock, w).0.strategy.stocks[code];
      && |c'.purchases| == |c.purchases|
      && forall j :: 0 <= j < |c.purchases| ==>
        c'.purchases[j] == if HeldAt(c.purchases, j) && Reaches(c, j, p) then SoldAt(c.purchases[j], p, clock.stamp) else c.purchases[j]
  {
    var c := b.strategy.stocks[code];
    var r := OnPriceUpdate(b, code, p, clock, w);
    assert BuyHalf(b.strategy, code, p, clock, w) == Value((c, false));
    assert SellsSettled(c, r.0.strategy.stocks[code], p, clock.stamp, w.sellOk, r.1);
    SettledAllOk(c, r.0.strategy.stocks[code], p, clock.stamp, w.sellOk, r.1);
  }

  /** With no zero price to divide by and every order successful, the sell half sells exactly the reached held rounds. */
  lemma SettledAllOk(c: StockConfig, c': StockConfig, p: int, date: string, ok: nat -> bool, o: Outcome)
    requires SellsSettled(c, c', p, date, ok, o)
    requires c.isActive && CurrentRound(c) != 0
    requires SellCheckable(c)
    requires forall k :: ok(k)
    ensures |c'.purchases| == |c.purchases|
    ensures forall j :: 0 <= j < |c.purchases| ==>
      c'.purchases[j] == if HeldAt(c.purchases, j) && Reaches(c, j, p) then SoldAt(c.purchases[j], p, date) else c.purchases[j]
  {
    SellCheckableTargets(c);
    var xs := ShouldSell(c, p).value;
    assert forall k :: 0 <= k < |xs| ==> xs[k] in xs && !FreeAt(c.purchases, xs[k]);
    assert o.Handled? && o.orders == xs;
    forall j | 0 <= j < |c.purchases|
      ensures c'.purchases[j] == if HeldAt(c.purchases, j) && Reaches(c, j, p) then SoldAt(c.purchases[j], p, date) else c.purchases[j]
    {
      if HeldAt(c.purchases, j) && Reaches(c, j, p) {
        assert j in xs;
        var k :| 0 <= k < |xs| && xs[k] == j;
        assert ok(k);
      } else {
        assert j !in xs;
        assert forall k :: 0 <= k < |xs| ==> xs[k] != j;
      }
    }
  }
}
