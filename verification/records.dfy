/**
 The dictionary form of a `StockConfig` (`to_dict` / `from_dict`). Dictionary
 values are modelled by a small JSON-like value type. `from_dict` reports the
 `KeyError` Python raises for a missing required key; a value of the wrong
 type, which Python would store unchecked, is reported as a type mismatch.
 */
module Records {
  import opened Base
  import opened Ledger

  datatype Json =
    | JNull
    | JBool(b: bool)
    | JInt(i: int)
    | JReal(r: real)
    | JStr(s: string)
    | JList(items: seq<Json>)
    | JObj(fields: map<string, Json>)

  datatype DecodeError = KeyError(key: string) | TypeMismatch(key: string)

  datatype Decoded<+T> = Ok(value: T) | Fail(error: DecodeError)

  /** Default rate list of `from_dict`: ten rates of 5 %. */
  const DEFAULT_RATES: seq<real> := [5.0, 5.0, 5.0, 5.0, 5.0, 5.0, 5.0, 5.0, 5.0, 5.0]

  function OptStr(o: Option<string>): Json
  {
    match o
    case None => JNull
    case Some(s) => JStr(s)
  }

  function OptInt(o: Option<int>): Json
  {
    match o
    case None => JNull
    case Some(i) => JInt(i)
  }

  function RatesToJson(rs: seq<real>): (r: seq<Json>)
    ensures |r| == |rs|
  {
    if |rs| == 0 then [] else [JReal(rs[0])] + RatesToJson(rs[1..])
  }

  /** The keys `to_dict` writes for one purchase. */
  const PURCHASE_KEYS: set<string> :=
    {"id", "round", "price", "quantity", "date", "status", "sold_price", "sold_date"}

  /** The keys `to_dict` writes for a stock; `last_order_time` is not among them. */
  const STOCK_KEYS: set<string> :=
    {"id", "code", "name", "is_active", "buy_amount", "split_rates", "target_rates", "purchases"}

  function PurchaseToJson(p: Purchase): (r: Json)
    ensures r.JObj? && r.fields.Keys == PURCHASE_KEYS
    ensures r.fields["sold_price"] == JNull <==> p.soldPrice.None?
    ensures r.fields["sold_date"] == JNull <==> p.soldDate.None?
  {
    JObj(map[
      "id" := OptStr(p.id),
      "round" := JInt(p.round),
      "price" := JInt(p.price),
      "quantity" := JInt(p.quantity),
      "date" := JStr(p.date),
      "status" := JStr(p.status),
      "sold_price" := OptInt(p.soldPrice),
      "sold_date" := OptStr(p.soldDate)])
  }

  function PurchasesToJson(ps: seq<Purchase>): (r: seq<Json>)
    ensures |r| == |ps|
  {
    if |ps| == 0 then [] else [PurchaseToJson(ps[0])] + PurchasesToJson(ps[1..])
  }

  /** `to_dict`: every field except `last_order_time`. */
  function ToDict(c: StockConfig): (r: map<string, Json>)
    ensures r.Keys == STOCK_KEYS
    ensures "last_order_time" !in r
    ensures r["purchases"].JList? && |r["purchases"].items| == |c.purchases|
  {
    map[
      "id" := OptStr(c.id),
      "code" := JStr(c.code),
      "name" := JStr(c.name),
      "is_active" := JBool(c.isActive),
      "buy_amount" := JInt(c.buyAmount),
      "split_rates" := JList(RatesToJson(c.splitRates)),
      "target_rates" := JList(RatesToJson(c.targetRates)),
      "purchases" := JList(PurchasesToJson(c.purchases))]
  }

  /** `d.get(key, default)`. */
  function Get(d: map<string, Json>, key: string, default: Json): Json
  {
    if key in d then d[key] else default
  }

  /** `d[key]`, raising KeyError when absent. */
  function Require(d: map<string, Json>, key: string): Decoded<Json>
  {
    if key in d then Ok(d[key]) else Fail(KeyError(key))
  }

  function AsOptStr(v: Json, key: string): Decoded<Option<string>>
  {
    match v
    case JNull => Ok(None)
    case JStr(s) => Ok(Some(s))
    case _ => Fail(TypeMismatch(key))
  }

  function AsOptInt(v: Json, key: string): Decoded<Option<int>>
  {
    match v
    case JNull => Ok(None)
    case JInt(i) => Ok(Some(i))
    case _ => Fail(TypeMismatch(key))
  }

  function AsInt(v: Decoded<Json>, key: string): Decoded<int>
  {
    match v
    case Fail(e) => Fail(e)
    case Ok(JInt(i)) => Ok(i)
    case Ok(_) => Fail(TypeMismatch(key))
  }

  function AsStr(v: Decoded<Json>, key: string): Decoded<string>
  {
    match v
    case Fail(e) => Fail(e)
    case Ok(JStr(s)) => Ok(s)
    case Ok(_) => Fail(TypeMismatch(key))
  }

  /** A rate list; Python accepts integer and float rates alike. */
  function AsRates(vs: seq<Json>, key: string): (r: Decoded<seq<real>>)
    ensures r.Ok? ==> |r.value| == |vs|
  {
    if |vs| == 0 then Ok([])
    else
      var head: Decoded<real> := match vs[0]
        case JReal(x) => Ok(x)
        case JInt(i) => Ok(i as real)
        case _ => Fail(TypeMismatch(key));
      match head
      case Fail(e) => Fail(e)
      case Ok(x) =>
        match AsRates(vs[1..], key)
        case Fail(e) => Fail(e)
        case Ok(rest) => Ok([x] + rest)
  }

  function RatesOf(d: map<string, Json>, key: string): Decoded<seq<real>>
  {
    match Get(d, key, JNull)
    case JNull => if key in d then Fail(TypeMismatch(key)) else Ok(DEFAULT_RATES)
    case JList(vs) => AsRates(vs, key)
    case _ => Fail(TypeMismatch(key))
  }

  /** The keys `from_dict` reads with `p[key]` from a purchase. */
  const REQUIRED_PURCHASE_KEYS: set<string> := {"round", "price", "quantity", "date"}

  /** One purchase of `from_dict`: round, price, quantity and date are required; status defaults to "holding". */
  function PurchaseFromJson(v: Json): (r: Decoded<Purchase>)
    ensures !v.JObj? ==> r.Fail?
    ensures v.JObj? && !(REQUIRED_PURCHASE_KEYS <= v.fields.Keys) ==> r.Fail?
    ensures r.Fail? && r.error.KeyError? ==>
      v.JObj? && r.error.key in REQUIRED_PURCHASE_KEYS && r.error.key !in v.fields
    ensures r.Ok? ==>
      && v.JObj?
      && v.fields["round"] == JInt(r.value.round)
      && v.fields["price"] == JInt(r.value.price)
      && v.fields["quantity"] == JInt(r.value.quantity)
      && v.fields["date"] == JStr(r.value.date)
    ensures r.Ok? && "status" !in v.fields ==> r.value.status == HOLDING
    ensures r.Ok? && "id" !in v.fields ==> r.value.id.None?
    ensures r.Ok? && "sold_price" !in v.fields ==> r.value.soldPrice.None?
    ensures r.Ok? && "sold_date" !in v.fields ==> r.value.soldDate.None?
  {
    match v
    case JObj(d) =>
      var id := AsOptStr(Get(d, "id", JNull), "id");
      var round := AsInt(Require(d, "round"), "round");
      var price := AsInt(Require(d, "price"), "price");
      var quantity := AsInt(Require(d, "quantity"), "quantity");
      var date := AsStr(Require(d, "date"), "date");
      var status := AsStr(Ok(Get(d, "status", JStr(HOLDING))), "status");
      var soldPrice := AsOptInt(Get(d, "sold_price", JNull), "sold_price");
      var soldDate := AsOptStr(Get(d, "sold_date", JNull), "sold_date");
      if id.Fail? then Fail(id.error)
      else if round.Fail? then Fail(round.error)
      else if price.Fail? then Fail(price.error)
      else if quantity.Fail? then Fail(quantity.error)
      else if date.Fail? then Fail(date.error)
      else if status.Fail? then Fail(status.error)
      else if soldPrice.Fail? then Fail(soldPrice.error)
      else if soldDate.Fail? then Fail(soldDate.error)
      else Ok(Purchase(id.value, round.value, price.value, quantity.value, date.value,
                       status.value, soldPrice.value, soldDate.value))
    case _ => Fail(TypeMismatch("purchases"))
  }

  function PurchasesFromJson(vs: seq<Json>): (r: Decoded<seq<Purchase>>)
    ensures r.Ok? ==> |r.value| == |vs|
  {
    if |vs| == 0 then Ok([])
    else
      match PurchaseFromJson(vs[0])
      case Fail(e) => Fail(e)
      case Ok(p) =>
        match PurchasesFromJson(vs[1..])
        case Fail(e) => Fail(e)
        case Ok(rest) => Ok([p] + rest)
  }

  /**
   `from_dict`: purchases first, then the required `code` and `name`, then the
   fields with defaults. `defaultBuyAmount` is the configured default amount.
   The order time is not part of the dictionary and starts unset.
   */
  function FromDict(d: map<string, Json>, defaultBuyAmount: int): (r: Decoded<StockConfig>)
    ensures "code" !in d || "name" !in d ==> r.Fail?
    ensures "code" !in d && "purchases" !in d ==> r == Fail(KeyError("code"))
    ensures r.Ok? ==> r.value.lastOrderTime.None?
    ensures r.Ok? ==> JStr(r.value.code) == d["code"] && JStr(r.value.name) == d["name"]
    ensures r.Ok? && "id" !in d ==> r.value.id.None?
    ensures r.Ok? && "is_active" !in d ==> r.value.isActive
    ensures r.Ok? && "buy_amount" !in d ==> r.value.buyAmount == defaultBuyAmount
    ensures r.Ok? && "split_rates" !in d ==> r.value.splitRates == DEFAULT_RATES
    ensures r.Ok? && "target_rates" !in d ==> r.value.targetRates == DEFAULT_RATES
    ensures r.Ok? && "purchases" !in d ==> r.value.purchases == []
  {
    var purchases := match Get(d, "purchases", JList([]))
      case JList(vs) => PurchasesFromJson(vs)
      case _ => Fail(TypeMismatch("purchases"));
    var code := AsStr(Require(d, "code"), "code");
    var name := AsStr(Require(d, "name"), "name");
    var id := AsOptStr(Get(d, "id", JNull), "id");
    var active: Decoded<bool> := match Get(d, "is_active", JBool(true))
      case JBool(b) => Ok(b)
      case _ => Fail(TypeMismatch("is_active"));
    var buyAmount := AsInt(Ok(Get(d, "buy_amount", JInt(defaultBuyAmount))), "buy_amount");
    var splitRates := RatesOf(d, "split_rates");
    var targetRates := RatesOf(d, "target_rates");
    if purchases.Fail? then Fail(purchases.error)
    else if code.Fail? then Fail(code.error)
    else if name.Fail? then Fail(name.error)
    else if id.Fail? then Fail(id.error)
    else if active.Fail? then Fail(active.error)
    else if buyAmount.Fail? then Fail(buyAmount.error)
    else if splitRates.Fail? then Fail(splitRates.error)
    else if targetRates.Fail? then Fail(targetRates.error)
    else Ok(StockConfig(id.value, code.value, name.value, active.value, buyAmount.value,
                        splitRates.value, targetRates.value, purchases.value, None))
  }

  lemma {:induction false} RatesRoundTrip(rs: seq<real>, key: string)
    ensures AsRates(RatesToJson(rs), key) == Ok(rs)
  {
    if |rs| > 0 {
      RatesRoundTrip(rs[1..], key);
      assert RatesToJson(rs)[1..] == RatesToJson(rs[1..]);
      assert [rs[0]] + rs[1..] == rs;
    }
  }

  /** `Purchase.from_dict(p.to_dict())` gives back `p`, optional fields included. */
  lemma PurchaseRoundTrip(p: Purchase)
    ensures PurchaseFromJson(PurchaseToJson(p)) == Ok(p)
  {
    var d := PurchaseToJson(p).fields;
    assert AsOptStr(Get(d, "id", JNull), "id") == Ok(p.id) by {
      match p.id { case None => case Some(_) => }
    }
    assert AsOptInt(Get(d, "sold_price", JNull), "sold_price") == Ok(p.soldPrice) by {
      match p.soldPrice { case None => case Some(_) => }
    }
    assert AsOptStr(Get(d, "sold_date", JNull), "sold_date") == Ok(p.soldDate) by {
      match p.soldDate { case None => case Some(_) => }
    }
  }

  lemma {:induction false} PurchasesRoundTrip(ps: seq<Purchase>)
    ensures PurchasesFromJson(PurchasesToJson(ps)) == Ok(ps)
  {
    if |ps| > 0 {
      PurchasesRoundTrip(ps[1..]);
      PurchaseRoundTrip(ps[0]);
      assert PurchasesToJson(ps)[1..] == PurchasesToJson(ps[1..]);
      assert [ps[0]] + ps[1..] == ps;
    }
  }

  /**
   `from_dict(to_dict(s))` gives back the same configuration and ledger; only
   the last order time, which the dictionary does not carry, is reset.
   */
  lemma DictRoundTrip(c: StockConfig, defaultBuyAmount: int)
    ensures FromDict(ToDict(c), defaultBuyAmount) == Ok(c.(lastOrderTime := None))
  {
    var d := ToDict(c);
    PurchasesRoundTrip(c.purchases);
    IdentityFieldsRoundTrip(c);
    SettingFieldsRoundTrip(c, defaultBuyAmount);
  }

  lemma IdentityFieldsRoundTrip(c: StockConfig)
    ensures Get(ToDict(c), "purchases", JList([])) == JList(PurchasesToJson(c.purchases))
    ensures AsStr(Require(ToDict(c), "code"), "code") == Ok(c.code)
    ensures AsStr(Require(ToDict(c), "name"), "name") == Ok(c.name)
    ensures AsOptStr(Get(ToDict(c), "id", JNull), "id") == Ok(c.id)
  {
    match c.id { case None => case Some(_) => }
  }

  lemma SettingFieldsRoundTrip(c: StockConfig, defaultBuyAmount: int)
    ensures Get(ToDict(c), "is_active", JBool(true)) == JBool(c.isActive)
    ensures AsInt(Ok(Get(ToDict(c), "buy_amount", JInt(defaultBuyAmount))), "buy_amount") == Ok(c.buyAmount)
    ensures RatesOf(ToDict(c), "split_rates") == Ok(c.splitRates)
    ensures RatesOf(ToDict(c), "target_rates") == Ok(c.targetRates)
  {
    var d := ToDict(c);
    assert Get(d, "split_rates", JNull) == JList(RatesToJson(c.splitRates));
    assert Get(d, "target_rates", JNull) == JList(RatesToJson(c.targetRates));
    RatesRoundTrip(c.splitRates, "split_rates");
    RatesRoundTrip(c.targetRates, "target_rates");
  }
}
