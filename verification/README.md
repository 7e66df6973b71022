# split-bot core in Dafny

This project models the decision core of split-bot, a stock bot that averages down ("split buying").
The bot buys a stock in numbered rounds. Round N is bought when the price falls a configured percentage
below the price of the last held round. Each round is sold on its own when the price rises a configured
percentage above that round's own purchase price.

The model covers three parts of the bot:

- **The ledger and strategy** (`bot/split_strategy.py`). Modules `Ledger`, `Strategy`, `Records` and `Registry`.
  - Purchases and per-stock configurations, and the values derived from them: held rounds in round order, current round, max round, totals and average price.
  - The next split-buy price, the per-round sell targets, and the buy and sell predicates.
  - Buy sizing, and the two ledger mutations `add_purchase` and `mark_sold`.
  - The dictionary round trip (`to_dict` / `from_dict`).
  - The code-to-config registry with its buy and sell intents, and `load_from_list`.
- **The real-time feed** (`bot/kis_websocket.py`). Modules `Text`, `Feed` and `Reconnect`.
  - The `|`/`^` trade-frame parser and the payload-decryption rule.
  - Message dispatch.
  - The subscription set and re-subscription on reconnect.
  - The approval-key cache.
  - The reconnect counter: reset on connect, linear back-off, give up at five.
- **The tick handler** (`bot/main.py`). Module `Bot`.
  - The market-hours window and the ten-second throttle on the enabled flag.
  - The guard sequence of `on_price_update`.
  - The ledger effects of `execute_buy` and `execute_sell`.

Module `Base` holds the Python building blocks shared by all of them:
- `Option`;
- `Py`, a value or a raised exception;
- Python list indexing with negative indices;
- `int()` of a float, which truncates toward zero;
- truthiness of optional strings.

`Scenarios` works through concrete ledgers.

Representation choices:

- **Time** is an integer count of microseconds, the resolution of Python's `datetime`. Every `datetime.now()` becomes a parameter.
- **Rates** are `real`. `int(price * (1 ± rate/100))` is exact real arithmetic followed by truncation toward zero.
- **Held order.** `holding_purchases` is a list of positions into `purchases`, ordered by (round, position). This is what Python's stable `sorted(..., key=round)` gives. A position also identifies the object that `mark_sold` mutates.
- **Exceptions.** An `IndexError` (a round with no rate to index) or a `ZeroDivisionError` (a purchase price of 0 in the profit rate) is a `Raised` value. The tick handler stops at it, as the asyncio callback running `on_price_update` does.
- **Outside world.** The broker, the database, the configuration row, `json.loads`, the base64 + AES-CBC + unpadding step of `_decrypt_data`, and the socket are parameters (`World`, `Cipher`, the `json` function, `Attempt`).

What the proofs establish, in outline:

- The held order is unique and is exactly the holding purchases.
- `add_purchase` appends the new round as the last held one and raises the current round by one.
- `mark_sold` releases exactly one position.
- The sell set is monotone in the price, with an inclusive boundary.
- `from_dict(to_dict(c))` gives `c` back, apart from the order time.
- Every plaintext or encrypted trade frame built from a tick parses back to that tick.
- The reconnect loop sleeps `60 * count` seconds. It gives up after five consecutive passes that failed to open a socket when counted from the start, and after four when counted from a connection that opened and then ended.
- A tick changes at most one stock's ledger. It appends at most one purchase, and only sells held purchases that reached their target, at the tick price.

Two behaviours of the code are worth knowing:

- A purchase whose price times its target rate is below 100 has a sell target equal to its own price (`Scenarios.SmallPriceTargetIsPrice`). The buy is evaluated before the sells, on the ledger as the buy left it. So such a round is sold again on the very tick that bought it.
- The back-off cap of 300 seconds never applies: the loop gives up before any sleep with a count of 5.

## Model

| member | source | states |
|---|---|---|
| Base.PyIndex | bot/split_strategy.py:123-124 | Python indexing: in-range and negative indices select from the end; None exactly when the index is outside `-len..len-1` (IndexError) |
| Base.Trunc | bot/split_strategy.py:111 | `int()` of a float truncates toward zero: the result is within one of x, on x's side of zero |
| Text.Split | bot/kis_websocket.py:91 | `str.split` on one character yields at least one part and no part contains the separator |
| Text.SplitLength | bot/kis_websocket.py:91-93 | splitting yields one more part than there are separators |
| Text.JoinSplit | bot/kis_websocket.py:91 | joining the parts with the separator restores the string |
| Text.SplitJoin | bot/kis_websocket.py:108 | splitting a join of separator-free parts gives the parts back |
| Text.SplitAppend | bot/kis_websocket.py:91 | a separator-free prefix followed by the separator becomes its own first part |
| Text.StripLeft | bot/kis_websocket.py:116 | the suffix of s left after leading whitespace: every removed character is whitespace and the result starts with a non-space |
| Text.StripRight | bot/kis_websocket.py:116 | the prefix of s left after trailing whitespace: every removed character is whitespace and the result ends with a non-space |
| Text.Strip | bot/kis_websocket.py:116-119 | `str.strip()`: a contiguous slice of s; everything before and after it is whitespace; a non-empty result starts and ends with a non-space |
| Text.ParseInt | bot/kis_websocket.py:116-119 | `int()` succeeds only on text that is not blank once stripped |
| Text.NatToStringValue | bot/kis_websocket.py:116 | printed natural numbers are digit groups whose value is the number |
| Text.IntRoundTrip | bot/kis_websocket.py:116-119 | `int(str(n)) == n` for every integer, negative included |
| Text.IntTextIsFloatText | bot/kis_websocket.py:118 | every text `int()` accepts is also accepted by `float()` |
| Text.FloatAccepts | bot/kis_websocket.py:118 | `float()` accepts only text that is not blank once stripped |
| Ledger.Insert | bot/split_strategy.py:52-55 | inserting a position into a (round, position)-ordered list keeps it ordered and adds exactly that position |
| Ledger.HeldAmong | bot/split_strategy.py:52-55 | the held positions below n, ordered by round with list order breaking ties |
| Ledger.Held | bot/split_strategy.py:49-55 | `holding_purchases`: exactly the positions whose status is "holding", ordered by round, stable |
| Ledger.OrderedUnique | bot/split_strategy.py:52-55 | two ordered position lists with the same members are equal, so the held order is unique |
| Ledger.LastHeld | bot/split_strategy.py:88-91 | `get_last_purchase`: None iff nothing is held, otherwise the held position every other held position precedes |
| Ledger.CurrentRound | bot/split_strategy.py:57-61 | 0 when nothing is held, otherwise a held round that no held round exceeds |
| Ledger.MaxRound | bot/split_strategy.py:63-66 | one more than the number of split rates |
| Ledger.SumHeldAmong | bot/split_strategy.py:68-76 | summing over the held order equals summing the holding purchases in list order |
| Ledger.TotalQuantity | bot/split_strategy.py:68-71 | the sum of quantities over holding purchases only |
| Ledger.TotalInvested | bot/split_strategy.py:73-76 | the sum of price × quantity over holding purchases only |
| Ledger.AvgPrice | bot/split_strategy.py:78-86 | 0 with no holdings or a non-positive total quantity; otherwise average × quantity equals the invested total |
| Ledger.AvgPriceBounds | bot/split_strategy.py:78-86 | with positive quantities the average lies between the lowest and highest held price |
| Strategy.SplitPrice | bot/split_strategy.py:110-111 | `int(price × (1 − rate/100))`: the product truncated toward zero, so within one of it on its side of zero; at most the last price for a non-negative rate; non-negative for rates up to 100 |
| Strategy.TargetPrice | bot/split_strategy.py:127 | `int(price × (1 + rate/100))`: the product truncated toward zero, so within one of it on its side of zero; at least the purchase price for a non-negative rate |
| Strategy.TargetRate | bot/split_strategy.py:123-124 | the rate at `min(round-1, len-1)`: that round's own rate, the last rate for later rounds, the rate counted from the end for rounds ≤ 0, None exactly where indexing raises |
| Strategy.NextSplitPrice | bot/split_strategy.py:93-112 | None at round 0 or at the maximum round; otherwise the split price of the last held purchase at rate `split_rates[round-1]`, counted from the end for negative rounds, raising exactly when that index is out of range |
| Strategy.SellableIn | bot/split_strategy.py:119-132 | the listed positions reaching their target, in list order; raises iff some listed purchase has no target rate |
| Strategy.Sellable | bot/split_strategy.py:114-132 | `get_sellable_purchases`: exactly the held purchases whose target is reached at p, in held order; raises iff a held purchase has no rate |
| Strategy.SellableMonotone | bot/split_strategy.py:129 | a higher price never sells fewer rounds |
| Strategy.SellBoundary | bot/split_strategy.py:129 | a held purchase is sellable at exactly its target price and not one below |
| Strategy.TargetsDefined | bot/split_strategy.py:123-124 | with any target rate configured, every round ≥ 0 has a target |
| Strategy.ShouldBuy | bot/split_strategy.py:134-156 | false when inactive, at round 0, at the maximum round or within 60 s of the last order; else true iff the split price is non-zero and p is at or below it |
| Strategy.BuyAtSplitPrice | bot/split_strategy.py:153 | a tick at the split price, or below it, triggers the buy |
| Strategy.BuyOnlyOnDrop | bot/split_strategy.py:151-154 | with non-negative split rates a buy only happens at or below the last held price |
| Strategy.ShouldSell | bot/split_strategy.py:158-163 | an inactive stock or round 0 sells nothing; otherwise exactly the held rounds whose target is reached, in held order, raising iff a held round has no target rate |
| Strategy.BuyQuantity | bot/split_strategy.py:165-169 | 0 for p ≤ 0; otherwise at least 1, and the largest count the buy amount affords when it affords one |
| Strategy.AddPurchase | bot/split_strategy.py:171-184 | appends one holding purchase numbered current round + 1 and stamps the order time; nothing else changes |
| Strategy.AddPurchaseAdvancesRound | bot/split_strategy.py:171-184 | after `add_purchase` the held order gains the new position at its end and the current round rises by one |
| Strategy.MarkSold | bot/split_strategy.py:186-190 | only that purchase changes, and only its status, sale price and sale date |
| Strategy.MarkSoldReleases | bot/split_strategy.py:186-190 | selling removes exactly that position from the held set and never raises the current round |
| Records.RatesToJson | bot/split_strategy.py:200-201 | one JSON number per rate |
| Records.PurchaseToJson | bot/split_strategy.py:203-212 | one purchase becomes an object with exactly its eight keys; the sale price and sale date are null exactly when unset |
| Records.PurchasesToJson | bot/split_strategy.py:202-214 | one JSON object per purchase |
| Records.ToDict | bot/split_strategy.py:191-214 | `to_dict` writes exactly the eight stock keys, never `last_order_time`, and one purchase object per purchase |
| Records.AsRates | bot/split_strategy.py:240-241 | a decoded rate list has one rate per element |
| Records.PurchaseFromJson | bot/split_strategy.py:219-229 | a purchase fails unless it is an object holding round, price, quantity and date; a KeyError names a missing required key; a decoded purchase carries those four values, status "holding" when absent, and no id, sale price or sale date when absent |
| Records.PurchasesFromJson | bot/split_strategy.py:220-232 | a decoded purchase list has one purchase per element |
| Records.FromDict | bot/split_strategy.py:217-243 | fails when code or name is missing, with KeyError("code") first when there are no purchases to fail earlier; a result carries the given code and name and no order time; absent keys give id None, active, the configured buy amount, ten 5 % rates for each rate list and no purchases |
| Records.RatesRoundTrip | bot/split_strategy.py:200-201 | decoding encoded rates gives them back |
| Records.PurchaseRoundTrip | bot/split_strategy.py:203-212 | decoding one encoded purchase gives it back, with absent id, sale price and sale date read back as absent |
| Records.PurchasesRoundTrip | bot/split_strategy.py:202-232 | decoding encoded purchases gives them back |
| Records.DictRoundTrip | bot/split_strategy.py:192-243 | `from_dict(to_dict(c))` is c with the order time cleared |
| Records.IdentityFieldsRoundTrip | bot/split_strategy.py:234-237 | purchases, code, name and id survive the round trip |
| Records.SettingFieldsRoundTrip | bot/split_strategy.py:238-241 | active flag, buy amount and both rate lists survive the round trip |
| Registry.AddStock | bot/split_strategy.py:252-254 | registers the stock under its code and leaves other codes untouched |
| Registry.RemoveStock | bot/split_strategy.py:256-258 | drops the code, if present, and nothing else |
| Registry.GetStock | bot/split_strategy.py:260-262 | the registered config, None iff the code is unknown |
| Registry.AddGetRemove | bot/split_strategy.py:252-262 | get after add finds the stock; remove after add equals remove alone |
| Registry.CheckBuy | bot/split_strategy.py:264-283 | no buy for an unknown code; otherwise a buy iff `should_buy`, with round current + 1, the computed quantity and the last held price |
| Registry.ProfitRate | bot/split_strategy.py:299 | rate × purchase price = (p − purchase price) × 100 |
| Registry.IntentFor | bot/split_strategy.py:294-312 | the intent carries the purchase's round, quantity and target, and profit (p − price) × quantity |
| Registry.SellIntentsFor | bot/split_strategy.py:294-314 | one intent per listed purchase in order; raises ZeroDivisionError iff some listed purchase has price 0 |
| Registry.CheckSell | bot/split_strategy.py:285-314 | nothing for an unknown code; raises when `should_sell` raises, and otherwise raises ZeroDivisionError iff some selected round has price 0; a result is one intent per `should_sell` round in order, each on a held purchase that reached its target, at the tick price |
| Registry.CheckSellOrdersReachedRounds | bot/split_strategy.py:285-314 | for an active stock with held rounds, all with a target and a non-zero price, `check_sell_condition` succeeds and names exactly the held positions whose target is reached |
| Registry.LoadDecoded | bot/split_strategy.py:355-360 | no error iff every item decoded; otherwise the error of the first item that failed |
| Registry.FirstFailure | bot/split_strategy.py:358-360 | the index of the first failing item, None iff none fails |
| Registry.LoadDecodedStops | bot/split_strategy.py:358-360 | at the first failure the registry is what loading the items before it gave, with no error there |
| Registry.LoadDecodedKeys | bot/split_strategy.py:355-360 | the registered codes are exactly the decoded codes |
| Registry.LoadDecodedLastWins | bot/split_strategy.py:358-360 | a code's entry is the last item carrying it |
| Registry.LoadFromList | bot/split_strategy.py:355-360 | `load_from_list` fails iff some item fails `from_dict`; then it reports the first failing item's error, and the registry holds what the items before it loaded |
| Registry.LoadStopsAtFirstFailure | bot/split_strategy.py:358-360 | a failed load stops at the first failing item, keeping the registry of the prefix before it |
| Registry.LoadFromListContents | bot/split_strategy.py:355-360 | after a clean load the keys are the decoded codes and the last item per code wins |
| Registry.LoadSavedList | bot/split_strategy.py:351-360 | loading the dictionaries of configs with distinct codes restores each config |
| Feed.Decrypt | bot/kis_websocket.py:73-86 | the input unchanged without key and iv or when decryption fails, else the plaintext |
| Feed.ParseBody | bot/kis_websocket.py:107-122 | a tick only from a body of at least 20 `^` fields whose price, change and volume fields `int` accepts and whose rate field `float` accepts, read from fields 0, 1, 2, 4, 5 and 12 |
| Feed.ParseBodyAccepts | bot/kis_websocket.py:107-122 | the converse: a body of at least 20 fields whose fields 2, 4 and 12 `int` accepts and whose field 5 `float` accepts yields a tick, whatever the spelling of the numbers |
| Feed.ParseRealtime | bot/kis_websocket.py:88-122 | None with fewer than three `|` or a message type other than trades; a tick only from a trade frame with at least 20 fields, read from fields 0, 1, 2, 4, 5 and 12 of the body, decrypted iff flagged "1" |
| Feed.ParseRealtimeIsParseBody | bot/kis_websocket.py:88-120 | a trade frame of at least four parts gives exactly what its body, decrypted iff flagged "1", parses to |
| Feed.SplitFrame | bot/kis_websocket.py:90-97 | a frame of separator-free parts splits into flag, message type, sequence and body |
| Feed.ParseCarried | bot/kis_websocket.py:103-120 | a trade frame whose body carries a tick's fields parses to that tick |
| Feed.ParsePlainFrame | bot/kis_websocket.py:88-120 | a plaintext frame built from a tick parses back to it |
| Feed.ParseEncryptedFrame | bot/kis_websocket.py:96-120 | an encrypted frame whose cipher text decrypts to a tick's body parses to that tick |
| Feed.EncryptedWithoutKeys | bot/kis_websocket.py:73-76 | without keys an encrypted frame parses as if its body were plain |
| Feed.HandleMessage | bot/kis_websocket.py:208-232 | a "{" frame never delivers a tick; it fails iff JSON decoding fails, and a trade reply carrying key and iv installs exactly those, the only way the keys change; a "|" frame delivers iff it parses; any other text is consumed unchanged |
| Feed.KeyReplyThenEncryptedFrame | bot/kis_websocket.py:73-122 | after a key reply, an encrypted frame whose cipher text decrypts under the installed key to a tick's body delivers that tick |
| Feed.Subscribe | bot/kis_websocket.py:257-261 | adds the code and nothing else; sends one registration when a socket and an approval key are set |
| Feed.Unsubscribe | bot/kis_websocket.py:263-286 | removes the code and nothing else; sends one release when a socket and an approval key are set |
| Feed.SubscribeUnsubscribe | bot/kis_websocket.py:257-265 | subscribing then unsubscribing leaves the set without the code |
| Feed.Resubscribe | bot/kis_websocket.py:198-202 | on (re)connect exactly one registration per subscribed code, nothing else |
| Feed.GetApprovalKey | bot/kis_websocket.py:32-71 | reuse iff not forced with a key held and unexpired; a fresh key is cached for 23 hours; a failure returns "" and keeps the cache |
| Feed.FreshKeyIsReused | bot/kis_websocket.py:39-42 | a fresh non-empty key is reused without a request for the next 23 hours |
| Reconnect.Backoff | bot/kis_websocket.py:194 | `min(60·count, 300)`: exactly 60·count up to count 5 and exactly 300 from count 5 on |
| Reconnect.Step | bot/kis_websocket.py:141-196 | a stop exits; otherwise the count is reset by an open socket and then incremented, gives up at 5, else sleeps 60·count |
| Reconnect.Run | bot/kis_websocket.py:141-196 | the k-th sleep is 60 × the count after pass k+1, between 60 and 240 s; giving up happens exactly when the count reaches 5 |
| Reconnect.Connect | bot/kis_websocket.py:124-196 | without an approval key nothing is attempted; with one the loop runs |
| Reconnect.GiveUpAfterFourFailedOpens | bot/kis_websocket.py:165-191 | giving up needs at least five passes, the last four of which opened no socket |
| Reconnect.OpenResetsCount | bot/kis_websocket.py:165 | after a pass whose socket opened the count is 1 |
| Bot.ClockOrder | bot/main.py:42-46 | Python's field-wise time order is the order of microseconds since midnight |
| Bot.IsMarketOpen | bot/main.py:34-46 | open iff a weekday and 09:00 ≤ time ≤ 15:30, both ends included |
| Bot.MarketCloseInclusive | bot/main.py:43-46 | open at 09:00:00 and 15:30:00.000000, closed a microsecond outside |
| Bot.CheckBotEnabled | bot/main.py:48-68 | no query within 10 s of the last check; a query stamps the time, a present row sets the flag from `is_running` (default false), an absent row keeps it |
| Bot.ThrottleWindow | bot/main.py:52-56 | after a query, calls in the next 10 s answer the same without querying |
| Bot.MissingFlagDisables | bot/main.py:61-65 | a row without `is_running` disables the bot |
| Bot.SavedPurchaseId | bot/main.py:137-141 | the saved id is kept only when the database is configured, the stock has an id and the save returned one |
| Bot.ExecuteBuy | bot/main.py:131-147 | a failed order changes nothing; a successful one appends one holding purchase at the intent's price and quantity as the new last held round and starts the cooldown |
| Bot.LastSale | bot/main.py:174-178 | the last successful sell order naming a position, None iff there is none |
| Bot.ExecuteSells | bot/main.py:171-178 | each position ends sold at its last successful order's price, and untouched without one |
| Bot.SellsSettle | bot/main.py:116-118 | orders on held, target-reaching positions at the tick price sell those positions at that price when the order succeeds, and a position with no successful order is left unchanged |
| Bot.SellHalf | bot/main.py:115-118 | the sell half: crashes, changing nothing, iff `should_sell` raises or a selected round has price 0; otherwise one sell order per `should_sell` round, successful ones sell at the tick price, and a position with no successful order is unchanged; other stocks untouched |
| Bot.BuyHalf | bot/main.py:110-113 | a purchase is appended iff `should_buy` holds and the order succeeds, with round current + 1 at the tick price |
| Bot.BuyThenSellStep | bot/main.py:110-118 | a buy followed by sells changes a ledger only by one appended purchase and sales of target-reaching held rounds |
| Bot.Trade | bot/main.py:110-118 | buy first, then the sell half on the ledger the buy left, settled as SellHalf states; a raising buy check changes nothing; other stocks untouched |
| Bot.OnPriceUpdate | bot/main.py:92-118 | ignores an empty code or zero price; records the price before the gates; no order when disabled or closed; when enabled and open the effect is exactly `Trade`; a tick changes one ledger only by one buy and target-reaching sales |
| Bot.TickSellsReachedRounds | bot/main.py:92-118 | on an enabled, open tick with no buy and every sell order succeeding, each held round that reached its target is sold at the tick price and every other purchase is unchanged |
| Scenarios.SecondRoundTrigger | bot/split_strategy.py:93-169 | with a 10 % step, round 1 at 10 000 triggers round 2 at 9 000 (not 9 001) for 11 shares |
| Scenarios.SecondRoundSells | bot/split_strategy.py:114-163 | after round 2 at 9 000 with 5 % targets, 9 450 sells round 2 only and 10 500 sells both |
| Scenarios.SmallPriceTargetIsPrice | bot/split_strategy.py:127-129 | when price × rate < 100 the target price equals the purchase price |
| Scenarios.RoundNumberReuse | bot/split_strategy.py:171-190 | selling the top round then buying reuses its round number |
| Scenarios.RoundGap | bot/split_strategy.py:57-61 | selling round 1 while round 2 is held leaves round 2 current, and the next buy is round 3 |

## Left out

- IEEE-754 rounding of rates and prices. Rates are exact reals, so a product that floats round just below an integer truncates differently here.
- `float(fields[5])` is checked for acceptance only; the tick keeps the text, not the float value.
- Unicode digits and Unicode whitespace accepted by `int()`, `float()` and `strip()`. Only ASCII digits and ASCII whitespace (tab to carriage return, 0x1C to 0x1F and space) are modelled.
- Records.FromDict: a value of the wrong JSON type is reported as a decoding failure. Python would store it unchecked and fail later, or never.
- `get_status_report` and `to_list` (bot/split_strategy.py:316-353). They format text and list values without changing state.
- The unreachable guard at bot/split_strategy.py:107-108. It is covered by the maximum-round check at line 95.
- asyncio tasks, signal handling and notifications. No two ticks are modelled as interleaving.
- The database writes other than the id given to a new purchase.
- Broker order placement, HTTP and the Telegram notifier. Each is a success/failure parameter.
- Base64, AES-CBC, unpadding and UTF-8 decoding. Together they are the `Cipher` parameter, which gives None where any step raises.
- `json.loads` and the shape of the JSON reply. Both are a parameter giving a `Control` value, or None where decoding raises.
- Feed.Subscribe: `_ws` is never cleared after a connection closes, so a send on a closed socket raises. The model only records whether a socket was ever set.
- The clock read once per tick. The source reads `datetime.now()` separately in `check_bot_enabled`, `is_market_open`, `should_buy`, `add_purchase` and `mark_sold`.
- Reconnect.Run: a pass is an abstract outcome. Whether the socket opened, and whether `stop()` was called during it, are given; the message loop inside a pass is modelled by `Feed`.
- The `TypeError` fallback in `connect`, which retries without headers. It is one pass of the loop either way.
- Text.FloatAccepts: its own contract only says that accepted text is not blank. Text.IntTextIsFloatText relates it to `int()`; the full float grammar (exponents, `inf`, `nan`) is stated only by its body.
- Calls into the broker, the database and the configuration table that raise. Token refresh, an HTTP post or `response.json()` can raise inside `execute_buy`, `execute_sell` or `check_bot_enabled` (bot/kis_api.py:54, bot/kis_api.py:204-205, bot/kis_api.py:240-241, bot/main.py:60, bot/main.py:132, bot/main.py:140, bot/main.py:174), and none of these calls is wrapped in `try`. Such a raise ends `on_price_update` early; after a buy it leaves the purchase appended and skips the sell half. The model gives these calls success or failure answers only.
- Text.ParseInt: its own contract only says that accepted text is not blank. Text.IntRoundTrip states which printed integers it accepts and the value it returns.
