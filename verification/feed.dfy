/**
 The real-time price feed: parsing of the broker's `|`/`^`-delimited trade
 frames, the payload decryption rule, the dispatch of incoming messages, the
 subscription set and the approval-key cache. The socket, AES and JSON
 decoding are parameters: `Cipher` stands for base64 + AES-CBC + unpadding +
 UTF-8 decoding and yields None where any step raises.
 */
module Feed {
  import opened Base
  import opened Text

  /** Message type of confirmed trades. */
  const TRADE_TR_ID: string := "H0STCNT0"

  /** A trade body must have at least this many `^`-separated fields. */
  const MIN_FIELDS: nat := 20

  /** Lifetime given to a freshly issued approval key: 23 hours, in microseconds. */
  const APPROVAL_KEY_TTL: int := 23 * 3600 * 1_000_000

  /** The parsed trade; the change rate keeps its text (its float value is not modelled). */
  datatype Tick = Tick(code: string, time: string, price: int, change: int,
                       changeRateText: string, volume: int)

  type Cipher = (string, string, string) -> Option<string>

  /** The payload key and initialisation vector, once the broker has sent them. */
  datatype FeedKeys = FeedKeys(aesKey: Option<string>, aesIv: Option<string>)

  predicate HasKeys(keys: FeedKeys)
  {
    Truthy(keys.aesKey) && Truthy(keys.aesIv)
  }

  /** `_decrypt_data`: the plaintext when keys are set and decryption succeeds, else the input. */
  function Decrypt(keys: FeedKeys, cipher: Cipher, data: string): (r: string)
    ensures !HasKeys(keys) ==> r == data
    ensures HasKeys(keys) && cipher(keys.aesKey.value, keys.aesIv.value, data).None? ==> r == data
    ensures HasKeys(keys) && cipher(keys.aesKey.value, keys.aesIv.value, data).Some? ==>
      r == cipher(keys.aesKey.value, keys.aesIv.value, data).value
  {
    if !HasKeys(keys) then data
    else
      match cipher(keys.aesKey.value, keys.aesIv.value, data)
      case None => data
      case Some(plain) => plain
  }

  /** The trade body of a frame: the fourth `|` part, decrypted only when the first part is "1". */
  function FrameBody(parts: seq<string>, keys: FeedKeys, cipher: Cipher): string
    requires |parts| >= 4
  {
    if parts[0] == "1" then Decrypt(keys, cipher, parts[3]) else parts[3]
  }

  /**
   The field half of `_parse_realtime_data`: None for fewer than twenty `^`
   fields or a numeric field that `int`/`float` rejects; otherwise the trade
   read from fields 0, 1, 2, 4, 5, 12.
   */
  function ParseBody(body: string): (r: Option<Tick>)
    ensures r.Some? ==>
      var fields := Split(body, '^');
      && |fields| >= MIN_FIELDS
      && r.value.code == fields[0]
      && r.value.time == fields[1]
      && ParseInt(fields[2]) == Some(r.value.price)
      && ParseInt(fields[4]) == Some(r.value.change)
      && FloatAccepts(fields[5]) && r.value.changeRateText == fields[5]
      && ParseInt(fields[12]) == Some(r.value.volume)
  {
    var fields := Split(body, '^');
    if |fields| < MIN_FIELDS then None
    else
      match (ParseInt(fields[2]), ParseInt(fields[4]), ParseInt(fields[12]))
      case (Some(price), Some(change), Some(volume)) =>
        if FloatAccepts(fields[5]) then Some(Tick(fields[0], fields[1], price, change, fields[5], volume))
        else None
      case _ => None
  }

  /**
   `int`/`float` acceptance of the numeric fields is exactly what `ParseBody`
   needs: any body of at least twenty fields whose fields 2, 4 and 12 `int`
   accepts and whose field 5 `float` accepts yields a tick, canonical digits
   or not.
   */
  lemma ParseBodyAccepts(body: string)
    ensures var fields := Split(body, '^');
      (&& |fields| >= MIN_FIELDS
       && ParseInt(fields[2]).Some? && ParseInt(fields[4]).Some? && ParseInt(fields[12]).Some?
       && FloatAccepts(fields[5]))
      <==> ParseBody(body).Some?
  {
  }

  /**
   `_parse_realtime_data`: None for fewer than four `|` parts or a message type
   other than trades; otherwise the trade read from the (decrypted) body.
   */
  function ParseRealtime(data: string, keys: FeedKeys, cipher: Cipher): (r: Option<Tick>)
    ensures Count(data, '|') < 3 ==> r.None?
    ensures r.Some? ==>
      var parts := Split(data, '|');
      && |parts| >= 4
      && parts[1] == TRADE_TR_ID
      && var fields := Split(FrameBody(parts, keys, cipher), '^');
      && |fields| >= MIN_FIELDS
      && r.value.code == fields[0]
      && r.value.time == fields[1]
      && ParseInt(fields[2]) == Some(r.value.price)
      && ParseInt(fields[4]) == Some(r.value.change)
      && FloatAccepts(fields[5]) && r.value.changeRateText == fields[5]
      && ParseInt(fields[12]) == Some(r.value.volume)
    ensures var parts := Split(data, '|');
      |parts| >= 4 && parts[1] != TRADE_TR_ID ==> r.None?
  {
    var parts := Split(data, '|');
    SplitLength(data, '|');
    if |parts| < 4 then None
    else if parts[1] != TRADE_TR_ID then None
    else ParseBody(FrameBody(parts, keys, cipher))
  }

  /**
   A trade frame of at least four `|` parts gives exactly what its body, decrypted
   when flagged "1", parses to; with ParseBodyAccepts this makes a tick
   follow from any body whose numeric fields `int`/`float` accept.
   */
  lemma ParseRealtimeIsParseBody(data: string, keys: FeedKeys, cipher: Cipher)
    ensures var parts := Split(data, '|');
      |parts| >= 4 && parts[1] == TRADE_TR_ID ==>
        ParseRealtime(data, keys, cipher) == ParseBody(FrameBody(parts, keys, cipher))
  {
  }

  /** The fields of a well-formed trade body carrying `t`. */
  predicate CarriesTick(fields: seq<string>, t: Tick)
  {
    && |fields| >= MIN_FIELDS
    && (forall k :: 0 <= k < |fields| ==> '^' !in fields[k] && '|' !in fields[k])
    && fields[0] == t.code
    && fields[1] == t.time
    && fields[2] == IntToString(t.price)
    && fields[4] == IntToString(t.change)
    && fields[5] == t.changeRateText && FloatAccepts(t.changeRateText)
    && fields[12] == IntToString(t.volume)
  }

  lemma {:induction false} JoinAvoids(parts: seq<string>, d: char, x: char)
    requires |parts| >= 1 && x != d
    requires forall k :: 0 <= k < |parts| ==> x !in parts[k]
    ensures x !in Join(parts, d)
  {
    if |parts| > 1 {
      JoinAvoids(parts[1..], d, x);
    }
  }

  /** A frame as the broker sends it: flag, message type, sequence field and body, joined by `|`. */
  function Frame(flag: string, seqNo: string, body: string): string
  {
    flag + "|" + TRADE_TR_ID + "|" + seqNo + "|" + body
  }

  lemma SplitFrame(flag: string, seqNo: string, body: string)
    requires '|' !in flag && '|' !in seqNo && '|' !in body
    ensures Split(Frame(flag, seqNo, body), '|') == [flag, TRADE_TR_ID, seqNo, body]
  {
    var tail := seqNo + "|" + body;
    var mid := TRADE_TR_ID + "|" + tail;
    assert Frame(flag, seqNo, body) == flag + ['|'] + mid;
    assert mid == TRADE_TR_ID + ['|'] + tail;
    assert tail == seqNo + ['|'] + body;
    SplitAppend(flag, mid, '|');
    SplitAppend(TRADE_TR_ID, tail, '|');
    SplitAppend(seqNo, body, '|');
    SplitNoSeparator(body, '|');
  }

  /** A frame whose (decrypted) body carries a tick's fields parses back to that tick. */
  lemma ParseCarried(data: string, fields: seq<string>, t: Tick, keys: FeedKeys, cipher: Cipher)
    requires CarriesTick(fields, t)
    requires var parts := Split(data, '|');
      |parts| >= 4 && parts[1] == TRADE_TR_ID && FrameBody(parts, keys, cipher) == Join(fields, '^')
    ensures ParseRealtime(data, keys, cipher) == Some(t)
  {
    ParseTradeFrame(data, keys, cipher);
    ParseBodyCarried(fields, t);
  }

  /** A body joined from a tick's fields parses to that tick. */
  lemma ParseBodyCarried(fields: seq<string>, t: Tick)
    requires CarriesTick(fields, t)
    ensures ParseBody(Join(fields, '^')) == Some(t)
  {
    SplitJoin(fields, '^');
    IntRoundTrip(t.price);
    IntRoundTrip(t.change);
    IntRoundTrip(t.volume);
  }

  /** A plaintext trade frame built from a tick's fields parses back to that tick. */
  lemma ParsePlainFrame(fields: seq<string>, t: Tick, seqNo: string, keys: FeedKeys, cipher: Cipher)
    requires CarriesTick(fields, t) && '|' !in seqNo
    ensures ParseRealtime(Frame("0", seqNo, Join(fields, '^')), keys, cipher) == Some(t)
  {
    JoinAvoids(fields, '^', '|');
    SplitFrame("0", seqNo, Join(fields, '^'));
    ParseCarried(Frame("0", seqNo, Join(fields, '^')), fields, t, keys, cipher);
  }

  /** An encrypted frame parses to the tick its decrypted body carries. */
  lemma ParseEncryptedFrame(fields: seq<string>, t: Tick, seqNo: string, sealed: string,
                            keys: FeedKeys, cipher: Cipher)
    requires CarriesTick(fields, t) && '|' !in seqNo && '|' !in sealed
    requires HasKeys(keys) && cipher(keys.aesKey.value, keys.aesIv.value, sealed) == Some(Join(fields, '^'))
    ensures ParseRealtime(Frame("1", seqNo, sealed), keys, cipher) == Some(t)
  {
    SplitFrame("1", seqNo, sealed);
    ParseCarried(Frame("1", seqNo, sealed), fields, t, keys, cipher);
  }

  /** Without the payload keys an encrypted frame is parsed as if its body were plaintext. */
  lemma EncryptedWithoutKeys(seqNo: string, body: string, keys: FeedKeys, cipher: Cipher)
    requires !HasKeys(keys) && '|' !in seqNo && '|' !in body
    ensures ParseRealtime(Frame("1", seqNo, body), keys, cipher) == ParseRealtime(Frame("0", seqNo, body), keys, cipher)
  {
    SplitFrame("1", seqNo, body);
    SplitFrame("0", seqNo, body);
    ParseTradeFrame(Frame("1", seqNo, body), keys, cipher);
    ParseTradeFrame(Frame("0", seqNo, body), keys, cipher);
  }

  lemma ParseTradeFrame(data: string, keys: FeedKeys, cipher: Cipher)
    requires |Split(data, '|')| >= 4 && Split(data, '|')[1] == TRADE_TR_ID
    ensures ParseRealtime(data, keys, cipher) == ParseBody(FrameBody(Split(data, '|'), keys, cipher))
  {
  }

  /** A JSON control message as the decoder sees it: header `tr_id` and body `output`. */
  datatype Control = Control(trId: string, output: Option<map<string, string>>)

  /** A trade subscription reply whose `output` carries both `key` and `iv`. */
  predicate KeyReply(ctl: Control)
  {
    ctl.trId == TRADE_TR_ID && ctl.output.Some? && "key" in ctl.output.value && "iv" in ctl.output.value
  }

  function ReplyKeys(ctl: Control): FeedKeys
    requires KeyReply(ctl)
  {
    FeedKeys(Some(ctl.output.value["key"]), Some(ctl.output.value["iv"]))
  }

  /** What became of one incoming message. */
  datatype Dispatch =
    | Delivered(tick: Tick)   // handed to the price callback
    | Consumed                // taken without a tick
    | Failed                  // decoding raised; the receive loop ends

  /**
   `_handle_message`: messages starting with "{" are control messages (a trade
   subscription reply carrying key and iv installs them); other messages
   containing "|" are trade frames, delivered only when they parse. `json`
   returns None where `json.loads` raises.
   */
  function HandleMessage(keys: FeedKeys, message: string, cipher: Cipher,
                         json: string -> Option<Control>): (r: (FeedKeys, Dispatch))
    ensures StartsWith(message, "{") ==> !r.1.Delivered?
    ensures r.1.Delivered? ==> '|' in message && ParseRealtime(message, keys, cipher) == Some(r.1.tick)
    ensures !StartsWith(message, "{") && '|' in message ==>
      (r.1.Delivered? <==> ParseRealtime(message, keys, cipher).Some?)
    ensures r.1.Failed? <==> StartsWith(message, "{") && json(message).None?
    ensures !StartsWith(message, "{") && '|' !in message ==> r == (keys, Consumed)
    ensures StartsWith(message, "{") && json(message).Some? && KeyReply(json(message).value) ==>
      r == (ReplyKeys(json(message).value), Consumed)
    ensures r.0 != keys ==>
      StartsWith(message, "{") && json(message).Some? && KeyReply(json(message).value) && r.0 == ReplyKeys(json(message).value)
  {
    if StartsWith(message, "{") then
      match json(message)
      case None => (keys, Failed)
      case Some(ctl) =>
        if KeyReply(ctl) then (ReplyKeys(ctl), Consumed)
        else (keys, Consumed)
    else if '|' in message then
      match ParseRealtime(message, keys, cipher)
      case Some(t) => (keys, Delivered(t))
      case None => (keys, Consumed)
    else (keys, Consumed)
  }

  /**
   A subscription reply carrying non-empty key and iv installs them, after which
   an encrypted trade frame whose body decrypts under them delivers its tick.
   */
  lemma KeyReplyThenEncryptedFrame(keys: FeedKeys, reply: string, json: string -> Option<Control>, cipher: Cipher,
                                   fields: seq<string>, t: Tick, seqNo: string, sealed: string)
    requires StartsWith(reply, "{") && json(reply).Some? && KeyReply(json(reply).value)
    requires CarriesTick(fields, t) && '|' !in seqNo && '|' !in sealed
    requires var k := ReplyKeys(json(reply).value);
      HasKeys(k) && cipher(k.aesKey.value, k.aesIv.value, sealed) == Some(Join(fields, '^'))
    ensures var k := HandleMessage(keys, reply, cipher, json).0;
      && k == ReplyKeys(json(reply).value)
      && HandleMessage(k, Frame("1", seqNo, sealed), cipher, json) == (k, Delivered(t))
  {
    var k := ReplyKeys(json(reply).value);
    ParseEncryptedFrame(fields, t, seqNo, sealed, k, cipher);
    FrameIsTradeText("1", seqNo, sealed);
  }

  /** A frame whose flag is not "{" is not a control message and contains `|`. */
  lemma FrameIsTradeText(flag: string, seqNo: string, body: string)
    requires |flag| == 1 && flag[0] != '{'
    ensures !StartsWith(Frame(flag, seqNo, body), "{") && '|' in Frame(flag, seqNo, body)
  {
    var f := Frame(flag, seqNo, body);
    assert f[0] == flag[0] && f[1] == '|';
  }

  // ---------------------------------------------------------------------------
  // subscriptions
  // ---------------------------------------------------------------------------

  /** Subscription requests sent on the socket (`tr_type` 1 and 2). */
  datatype Request = Register(code: string) | Release(code: string)

  /** The subscribed codes, whether a socket is set, and the approval key. */
  datatype Session = Session(subscribed: set<string>, connected: bool, approvalKey: Option<string>)

  predicate CanSend(s: Session)
  {
    s.connected && Truthy(s.approvalKey)
  }

  /** `subscribe`: adds the code, and registers it at once when a request can be sent. */
  function Subscribe(s: Session, code: string): (r: (Session, seq<Request>))
    ensures r.0 == s.(subscribed := s.subscribed + {code})
    ensures CanSend(s) ==> r.1 == [Register(code)]
    ensures !CanSend(s) ==> r.1 == []
  {
    (s.(subscribed := s.subscribed + {code}), if CanSend(s) then [Register(code)] else [])
  }

  /** `unsubscribe`: drops the code, and releases it when a request can be sent. */
  function Unsubscribe(s: Session, code: string): (r: (Session, seq<Request>))
    ensures r.0 == s.(subscribed := s.subscribed - {code})
    ensures CanSend(s) ==> r.1 == [Release(code)]
    ensures !CanSend(s) ==> r.1 == []
  {
    (s.(subscribed := s.subscribed - {code}), if CanSend(s) then [Release(code)] else [])
  }

  /** Subscribing then unsubscribing a code leaves the set as if it had never been added. */
  lemma SubscribeUnsubscribe(s: Session, code: string)
    ensures Unsubscribe(Subscribe(s, code).0, code).0 == s.(subscribed := s.subscribed - {code})
    ensures code in Subscribe(s, code).0.subscribed
    ensures code !in Unsubscribe(s, code).0.subscribed
  {
  }

  /**
   The re-subscription done on every (re)connect: one registration per code in
   the set, in no particular order, and nothing when no request can be sent.
   */
  method Resubscribe(s: Session) returns (sent: seq<Request>)
    ensures !CanSend(s) ==> sent == []
    ensures CanSend(s) ==> |sent| == |s.subscribed|
    ensures CanSend(s) ==> forall c :: Register(c) in sent <==> c in s.subscribed
    ensures forall k :: 0 <= k < |sent| ==> sent[k].Register?
  {
    sent := [];
    var rest := s.subscribed;
    while rest != {}
      invariant rest <= s.subscribed
      invariant !CanSend(s) ==> sent == []
      invariant CanSend(s) ==> |sent| == |s.subscribed - rest|
      invariant CanSend(s) ==> forall c :: Register(c) in sent <==> c in s.subscribed - rest
      invariant forall k :: 0 <= k < |sent| ==> sent[k].Register?
      decreases rest
    {
      var c :| c in rest;
      if CanSend(s) {
        assert s.subscribed - (rest - {c}) == (s.subscribed - rest) + {c};
        sent := sent + [Register(c)];
      }
      rest := rest - {c};
    }
    assert s.subscribed - rest == s.subscribed;
  }

  // ---------------------------------------------------------------------------
  // approval key
  // ---------------------------------------------------------------------------

  datatype ApprovalCache = ApprovalCache(key: Option<string>, expires: Option<int>)

  /** The issuing endpoint's answer: an error (non-200 or exception), or a body with an optional key. */
  datatype ApprovalReply = IssueFailed | Issued(key: Option<string>)

  predicate CacheValid(cache: ApprovalCache, now: int)
  {
    Truthy(cache.key) && cache.expires.Some? && now < cache.expires.value
  }

  /** Result of `_get_approval_key`: the new cache, the returned key, and whether the endpoint was called. */
  datatype ApprovalResult = ApprovalResult(cache: ApprovalCache, key: Option<string>, requested: bool)

  /**
   `_get_approval_key`: the cached key is reused iff not forced, a key is held
   and it has not expired; otherwise a new key is requested, cached for 23
   hours, and a failed request returns "" and keeps the cache.
   */
  function GetApprovalKey(cache: ApprovalCache, force: bool, now: int, reply: ApprovalReply): (r: ApprovalResult)
    ensures !r.requested <==> !force && CacheValid(cache, now)
    ensures !r.requested ==> r.cache == cache && r.key == cache.key
    ensures r.requested && reply.IssueFailed? ==> r.cache == cache && r.key == Some("")
    ensures r.requested && reply.Issued? ==>
      r.key == reply.key && r.cache == ApprovalCache(reply.key, Some(now + APPROVAL_KEY_TTL))
  {
    if !force && CacheValid(cache, now) then ApprovalResult(cache, cache.key, false)
    else
      match reply
      case IssueFailed => ApprovalResult(cache, Some(""), true)
      case Issued(k) => ApprovalResult(ApprovalCache(k, Some(now + APPROVAL_KEY_TTL)), k, true)
  }

  /** A freshly issued non-empty key is reused, without a request, for the next 23 hours. */
  lemma FreshKeyIsReused(cache: ApprovalCache, force: bool, now: int, k: string, later: int, reply: ApprovalReply)
    requires k != "" && now <= later < now + APPROVAL_KEY_TTL
    requires GetApprovalKey(cache, force, now, Issued(Some(k))).requested
    ensures var first := GetApprovalKey(cache, force, now, Issued(Some(k)));
      var second := GetApprovalKey(first.cache, false, later, reply);
      !second.requested && second.key == Some(k)
  {
  }
}
