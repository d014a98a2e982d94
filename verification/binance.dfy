/**
 * The client proper: the endpoint catalogue, the parameter dicts the
 * per-endpoint functions build, and geturl_json, which filters, signs and
 * sends them. The credentials set by set_api_key are fields of a Client
 * object; the clock, HMAC-SHA256 and the network are parameters.
 */
module Binance {

  import opened Results
  import opened UrlEncode
  import opened Dicts
  import opened Http
  import opened Signing
  import opened Tickers

  /** A Python argument: None or a value. */
  type Arg = Option<Value>

  const UrlBase: string := "https://www.binance.com/api/"

  /** An endpoint of version 1 of the REST API. */
  function V1Url(endpoint: string): (r: string)
    ensures |r| == |UrlBase| + 3 + |endpoint|
    ensures r[..|UrlBase|] == UrlBase && r[|UrlBase|..|UrlBase| + 3] == "v1/" && r[|UrlBase| + 3..] == endpoint
  {
    UrlBase + "v1/" + endpoint
  }

  /** An endpoint of version 3 of the REST API. */
  function V3Url(endpoint: string): (r: string)
    ensures |r| == |UrlBase| + 3 + |endpoint|
    ensures r[..|UrlBase|] == UrlBase && r[|UrlBase|..|UrlBase| + 3] == "v3/" && r[|UrlBase| + 3..] == endpoint
  {
    UrlBase + "v3/" + endpoint
  }

  /** No version-1 URL is a version-3 URL, and each determines its endpoint. */
  lemma VersionedUrlsDiffer(e: string, e': string)
    ensures V1Url(e) != V3Url(e')
    ensures V1Url(e) == V1Url(e') ==> e == e'
    ensures V3Url(e) == V3Url(e') ==> e == e'
  {
    assert V1Url(e)[|UrlBase| + 1] == '1';
    assert V3Url(e')[|UrlBase| + 1] == '3';
  }

  /** The endpoint catalogue, URLS. */
  const Urls: map<string, string> := map[
    "ping" := V1Url("ping"),
    "time" := V1Url("time"),
    "depth" := V1Url("depth"),
    "agg_trades" := V1Url("aggTrades"),
    "candlesticks" := V1Url("klines"),
    "ticker_prices" := V1Url("ticker/allPrices"),
    "ticker_books" := V1Url("ticker/allBookTickers"),
    "ticker_24hr" := V1Url("/ticker/24hr"),
    "order" := V3Url("order"),
    "open_orders" := V3Url("openOrders"),
    "all_orders" := V3Url("allOrders"),
    "account" := V3Url("account"),
    "my_trades" := V3Url("myTrades")
  ]

  predicate UnderBase(url: string)
  {
    |url| >= |UrlBase| && url[..|UrlBase|] == UrlBase
  }

  /** Every catalogued URL lies under the API base; the 24-hour ticker's
      endpoint starts with '/', so its URL has a doubled slash. */
  lemma CatalogUnderBase()
    ensures forall name :: name in Urls ==> UnderBase(Urls[name])
    ensures Urls["ticker_24hr"] == UrlBase + "v1//ticker/24hr"
  {
  }

  // ---------------------------------------------------------------------
  // What each endpoint function hands to geturl_json
  // ---------------------------------------------------------------------

  /** A call of geturl_json: the URL, the dict literal written at the call
      site (in source order), whether the caller omitted the dict and so
      got the default one, whether to sign, and the HTTP method. */
  datatype Call = Call(url: string, params: seq<Entry>, usesDefault: bool, sign: bool, httpMethod: string)

  /** What every endpoint function builds: a catalogued URL, a dict with
      distinct keys and without the two keys geturl_json adds itself. */
  predicate WellFormed(c: Call)
  {
    && UnderBase(c.url)
    && DistinctKeys(c.params)
    && TimestampKey !in Keys(c.params)
    && SignatureKey !in Keys(c.params)
  }

  /** A public market-data call: unsigned GET with the given items. */
  predicate Public(c: Call, items: seq<Entry>)
  {
    WellFormed(c) && !c.sign && c.httpMethod == "GET" && c.params == items
  }

  /** A signed account call with the given method and items. */
  predicate Signed(c: Call, httpMethod: string, items: seq<Entry>)
  {
    WellFormed(c) && c.sign && c.httpMethod == httpMethod && c.params == items
  }

  function DefaultCall(url: string, sign: bool): Call
  {
    Call(url, [], true, sign, "GET")
  }

  /** ping() */
  function PingCall(): (c: Call)
    ensures Public(c, []) && c.usesDefault && c.url == V1Url("ping")
  {
    DefaultCall(Urls["ping"], false)
  }

  /** get_server_time() */
  function ServerTimeCall(): (c: Call)
    ensures Public(c, []) && c.usesDefault && c.url == V1Url("time")
  {
    DefaultCall(Urls["time"], false)
  }

  /** get_depth(symbol, limit=None) */
  function DepthCall(symbol: Arg, limit: Arg): (c: Call)
    ensures Public(c, [("symbol", symbol), ("limit", limit)]) && c.url == V1Url("depth")
  {
    Call(Urls["depth"], [("symbol", symbol), ("limit", limit)], false, false, "GET")
  }

  /** get_aggtrades(symbol, from_id=None, start_time=None, end_time=None, limit=None) */
  function AggTradesCall(symbol: Arg, fromId: Arg, startTime: Arg, endTime: Arg, limit: Arg): (c: Call)
    ensures Public(c, [("symbol", symbol), ("fromId", fromId), ("startTime", startTime),
                       ("endTime", endTime), ("limit", limit)])
    ensures c.url == V1Url("aggTrades")
  {
    Call(Urls["agg_trades"],
         [("symbol", symbol), ("fromId", fromId), ("startTime", startTime), ("endTime", endTime), ("limit", limit)],
         false, false, "GET")
  }

  /** get_candlesticks(symbol, interval, limit=None, start_time=None, end_time=None) */
  function CandlesticksCall(symbol: Arg, interval: Arg, limit: Arg, startTime: Arg, endTime: Arg): (c: Call)
    ensures Public(c, [("symbol", symbol), ("interval", interval), ("limit", limit),
                       ("startTime", startTime), ("endTime", endTime)])
    ensures c.url == V1Url("klines")
  {
    Call(Urls["candlesticks"],
         [("symbol", symbol), ("interval", interval), ("limit", limit), ("startTime", startTime), ("endTime", endTime)],
         false, false, "GET")
  }

  /** The request of get_prices() */
  function PricesCall(): (c: Call)
    ensures Public(c, []) && c.usesDefault && c.url == V1Url("ticker/allPrices")
  {
    DefaultCall(Urls["ticker_prices"], false)
  }

  /** The request of get_book_tickers() */
  function BookTickersCall(): (c: Call)
    ensures Public(c, []) && c.usesDefault && c.url == V1Url("ticker/allBookTickers")
  {
    DefaultCall(Urls["ticker_books"], false)
  }

  /** get_prevday(symbol) */
  function PrevDayCall(symbol: Arg): (c: Call)
    ensures Public(c, [("symbol", symbol)]) && c.url == UrlBase + "v1//ticker/24hr"
  {
    Call(Urls["ticker_24hr"], [("symbol", symbol)], false, false, "GET")
  }

  /** The dict literal of new_order(symbol, side, type, quantity, price,
      new_client_order_id=None, stop_price=None, iceberg_qty=None,
      recv_window=None): the time in force is fixed at good-till-cancelled. */
  function NewOrderItems(symbol: Arg, side: Arg, orderType: Arg, quantity: Arg, price: Arg,
                         newClientOrderId: Arg, stopPrice: Arg, icebergQty: Arg, recvWindow: Arg): (items: seq<Entry>)
    ensures DistinctKeys(items)
    ensures TimestampKey !in Keys(items) && SignatureKey !in Keys(items)
    ensures |items| == 10 && items[3] == ("timeInForce", Some(Text("GTC")))
  {
    var items := [("symbol", symbol), ("side", side), ("type", orderType), ("timeInForce", Some(Text("GTC"))),
          ("quantity", quantity), ("price", price), ("newClientOrderId", newClientOrderId),
          ("stopPrice", stopPrice), ("icebergQty", icebergQty), ("recvWindow", recvWindow)];
    assert DistinctKeys(items);
    items
  }

  /** new_order(...): a signed POST of those items. */
  function NewOrderCall(symbol: Arg, side: Arg, orderType: Arg, quantity: Arg, price: Arg,
                        newClientOrderId: Arg, stopPrice: Arg, icebergQty: Arg, recvWindow: Arg): (c: Call)
    ensures Signed(c, "POST", NewOrderItems(symbol, side, orderType, quantity, price, newClientOrderId,
                                            stopPrice, icebergQty, recvWindow))
    ensures c.url == V3Url("order")
  {
    Call(Urls["order"],
         NewOrderItems(symbol, side, orderType, quantity, price, newClientOrderId, stopPrice, icebergQty, recvWindow),
         false, true, "POST")
  }

  /** Whatever the caller passes, the order is sent good-till-cancelled:
      the item survives the None filter and is what the signed dict holds
      under "timeInForce". */
  lemma NewOrderGoodTillCancelled(symbol: Arg, side: Arg, orderType: Arg, quantity: Arg, price: Arg,
                                  newClientOrderId: Arg, stopPrice: Arg, icebergQty: Arg, recvWindow: Arg,
                                  now: int)
    ensures var items := NewOrderItems(symbol, side, orderType, quantity, price, newClientOrderId, stopPrice,
                                       icebergQty, recvWindow);
      Lookup(WithTimestamp(items, now), "timeInForce") == Some(Some(Text("GTC")))
  {
    var items := NewOrderItems(symbol, side, orderType, quantity, price, newClientOrderId, stopPrice,
                               icebergQty, recvWindow);
    var gtc := items[3];
    DropNoneMembers(items);
    assert gtc in DropNone(items);
    PutOthers(DropNone(items), TimestampKey, Some(Int(now)), gtc.0);
    DropNoneKeys(items);
    LookupMember(DropNone(items), gtc);
  }

  const MissingOrderIdMessage: string := "param Error: must specify orderId or origClientOrderId"

  /** query_order(symbol, order_id=None, orig_client_order_id=None, recv_window=None):
      refused before any request unless one of the two order ids is given. */
  function QueryOrderCall(symbol: Arg, orderId: Arg, origClientOrderId: Arg, recvWindow: Arg): (r: Result<Call, Error>)
    ensures r.Err? <==> orderId.None? && origClientOrderId.None?
    ensures r.Err? ==> r.error == Exception(MissingOrderIdMessage)
    ensures r.Ok? ==> Signed(r.value, "GET", [("symbol", symbol), ("orderId", orderId),
                                               ("origClientOrderId", origClientOrderId), ("recvWindow", recvWindow)])
    ensures r.Ok? ==> r.value.url == V3Url("order")
  {
    if orderId.None? && origClientOrderId.None? then Err(Exception(MissingOrderIdMessage))
    else Ok(Call(Urls["order"],
                 [("symbol", symbol), ("orderId", orderId), ("origClientOrderId", origClientOrderId),
                  ("recvWindow", recvWindow)],
                 false, true, "GET"))
  }

  /** cancel_order(symbol, order_id=None, orig_client_order_id=None, ...):
      the same check, then a signed DELETE. */
  function CancelOrderCall(symbol: Arg, orderId: Arg, origClientOrderId: Arg, newClientOrderId: Arg,
                           recvWindow: Arg): (r: Result<Call, Error>)
    ensures r.Err? <==> orderId.None? && origClientOrderId.None?
    ensures r.Err? ==> r.error == Exception(MissingOrderIdMessage)
    ensures r.Ok? ==> Signed(r.value, "DELETE", [("symbol", symbol), ("orderId", orderId),
                                                  ("origClientOrderId", origClientOrderId),
                                                  ("newClientOrderId", newClientOrderId), ("recvWindow", recvWindow)])
    ensures r.Ok? ==> r.value.url == V3Url("order")
  {
    if orderId.None? && origClientOrderId.None? then Err(Exception(MissingOrderIdMessage))
    else Ok(Call(Urls["order"],
                 [("symbol", symbol), ("orderId", orderId), ("origClientOrderId", origClientOrderId),
                  ("newClientOrderId", newClientOrderId), ("recvWindow", recvWindow)],
                 false, true, "DELETE"))
  }

  /** open_orders(symbol) */
  function OpenOrdersCall(symbol: Arg): (c: Call)
    ensures Signed(c, "GET", [("symbol", symbol)]) && c.url == V3Url("openOrders")
  {
    Call(Urls["open_orders"], [("symbol", symbol)], false, true, "GET")
  }

  /** all_orders(symbol, order_id=None, limit=None) */
  function AllOrdersCall(symbol: Arg, orderId: Arg, limit: Arg): (c: Call)
    ensures Signed(c, "GET", [("symbol", symbol), ("orderId", orderId), ("limit", limit)])
    ensures c.url == V3Url("allOrders")
  {
    Call(Urls["all_orders"], [("symbol", symbol), ("orderId", orderId), ("limit", limit)], false, true, "GET")
  }

  /** account_info(): signed, with the default dict. */
  function AccountInfoCall(): (c: Call)
    ensures Signed(c, "GET", []) && c.usesDefault && c.url == V3Url("account")
  {
    DefaultCall(Urls["account"], true)
  }

  /** my_trades(symbol, limit=None, from_id=None) */
  function MyTradesCall(symbol: Arg, limit: Arg, fromId: Arg): (c: Call)
    ensures Signed(c, "GET", [("symbol", symbol), ("limit", limit), ("fromId", fromId)])
    ensures c.url == V3Url("myTrades")
  {
    Call(Urls["my_trades"], [("symbol", symbol), ("limit", limit), ("fromId", fromId)], false, true, "GET")
  }

  // ---------------------------------------------------------------------
  // The client: the credentials, the shared default dict, geturl_json
  // ---------------------------------------------------------------------

  /** What a call returns or raises when its dict literal is a fresh object. */
  function Fetch(c: Call, apiKey: Option<string>, secret: Option<string>, now: int, mac: Mac,
                 network: Request -> Reply): Result<Json, Error>
  {
    Exchange(BuildRequest(c.url, Some(FromPairs(c.params)), c.sign, c.httpMethod, apiKey, secret, now, mac), network)
  }

  /** The request a call hands to urlopen when its dict literal is a fresh
      object, or None when it raises first. */
  function Sent(c: Call, apiKey: Option<string>, secret: Option<string>, now: int, mac: Mac): Option<Request>
  {
    var built := BuildRequest(c.url, Some(FromPairs(c.params)), c.sign, c.httpMethod, apiKey, secret, now, mac);
    if built.Ok? then Some(built.value) else None
  }

  /** The request of an unsigned call: `url?` and its surviving items,
      without a header. */
  lemma UnsignedCallRequest(c: Call, apiKey: Option<string>, secret: Option<string>, now: int, mac: Mac)
    requires WellFormed(c) && !c.sign
    ensures var req := Request(c.url + "?" + Encode(DropNone(c.params)), c.httpMethod, []);
      && Sent(c, apiKey, secret, now, mac) == Some(req)
      && forall network :: Fetch(c, apiKey, secret, now, mac, network) == Dispatch(network(req))
    ensures c.params == [] ==> c.url + "?" + Encode(DropNone(c.params)) == c.url + "?"
  {
    FromDistinctPairs(c.params);
    RequestUrl(c.url, c.params, false, c.httpMethod, apiKey, secret, now, mac);
    if c.params == [] {
      assert Encode(DropNone(c.params)) == [];
    }
  }

  /** The request of a signed call: nothing without a secret; otherwise
      `url?`, the signed string, `&signature=` and the digest of exactly that
      string, with the API-key header. */
  lemma SignedCallRequest(c: Call, apiKey: Option<string>, secret: Option<string>, now: int, mac: Mac)
    requires WellFormed(c) && c.sign
    ensures secret.None? ==> Sent(c, apiKey, secret, now, mac) == None
    ensures secret.None? ==> forall network :: Fetch(c, apiKey, secret, now, mac, network) == Err(MissingSecret)
    ensures secret.Some? ==>
      var signed := SignedString(c.params, now);
      Sent(c, apiKey, secret, now, mac)
        == Some(Request(c.url + "?" + signed + "&" + (SignatureKey + "=" + Signature(secret.value, signed, mac)),
                        c.httpMethod, [Header(ApiKeyHeader, apiKey)]))
    ensures secret.Some? && apiKey.None? ==>
      forall network :: Fetch(c, apiKey, secret, now, mac, network) == Err(TypeError(NoneHeaderMessage))
    ensures secret.Some? && apiKey.Some? ==>
      forall network :: Fetch(c, apiKey, secret, now, mac, network)
                          == Dispatch(network(Sent(c, apiKey, secret, now, mac).value))
  {
    FromDistinctPairs(c.params);
    RequestUrl(c.url, c.params, true, c.httpMethod, apiKey, secret, now, mac);
    if secret.Some? {
      var req := Sent(c, apiKey, secret, now, mac).value;
      assert req.headers == [Header(ApiKeyHeader, apiKey)];
      if apiKey.None? {
        assert req.headers[0].value.None?;
      }
    }
  }

  /** The filter loop of geturl_json: over a snapshot of the keys, delete
      every item whose value is None. The survivors keep their values and
      their relative order. */
  method FilterNone(d: Dict<Arg>)
    requires d.Valid()
    modifies d
    ensures d.Valid() && d.items == DropNone(old(d.items))
  {
    ghost var original := d.items;
    var keys := d.KeyList();
    assert original[..0] == [] && original[0..] == original;
    var i := 0;
    while i < |keys|
      invariant 0 <= i <= |keys| == |original|
      invariant keys == Keys(original)
      invariant d.Valid()
      invariant d.items == DropNone(original[..i]) + original[i..]
    {
      FilterStep(original, i);
      assert keys[i] == original[i].0;
      var value := d.Get(keys[i]);
      if value.None? {
        d.Delete(keys[i]);
      }
      i := i + 1;
    }
    assert original[..i] == original && original[i..] == [];
    assert d.items == DropNone(original) + [];
  }

  /** Stands in for the HMAC on calls that do not sign. */
  const NoMac: Mac := (key: seq<Byte>, msg: seq<Byte>) => []

  /** The module state of binance.py: the two credentials set_api_key
      assigns, and the one dict object that is the default value of
      geturl_json's `query_params`. */
  class Client {
    var apiKey: Option<string>
    var secretKey: Option<string>
    const sharedDefault: Dict<Arg>

    /** Importing the module: no credentials, an empty default dict. */
    constructor ()
      ensures apiKey == None && secretKey == None
      ensures fresh(sharedDefault) && sharedDefault.Valid() && sharedDefault.items == []
    {
      apiKey := None;
      secretKey := None;
      sharedDefault := new Dict([]);
    }

    /** set_api_key(key, secret) */
    method SetApiKey(key: Option<string>, secret: Option<string>)
      modifies this
      ensures apiKey == key && secretKey == secret
    {
      apiKey := key;
      secretKey := secret;
    }

    /** geturl_json(url, query_params, sign, method): filters the caller's
        dict in place, stamps and signs it on a signed call, requests the
        URL and returns the decoded reply. `queryParams` is null when the
        caller passed None, `now` is what timestamp() reads off the clock
        and `network` is what urlopen and json.loads make of a request.
        Also returns the request that was sent, if one was. */
    method GetUrlJson(url: string, queryParams: Dict?<Arg>, sign: bool, httpMethod: string,
                      now: int, mac: Mac, network: Request -> Reply)
      returns (sent: Option<Request>, ret: Result<Json, Error>)
      requires queryParams != null ==> queryParams.Valid()
      modifies queryParams
      ensures var params := if queryParams == null then None else Some(old(queryParams.items));
        var built := BuildRequest(url, params, sign, httpMethod, apiKey, secretKey, now, mac);
        && sent == (if built.Ok? then Some(built.value) else None)
        && ret == Exchange(built, network)
      ensures queryParams != null ==>
        queryParams.Valid() && queryParams.items == FinalParams(old(queryParams.items), sign, now, secretKey, mac)
    {
      var fullUrl := url;
      if queryParams != null {
        ghost var original := queryParams.items;
        FilterNone(queryParams);
        if sign {
          queryParams.Set(TimestampKey, Some(Int(now)));
          assert queryParams.items == WithTimestamp(original, now);
          if secretKey.None? {
            return None, Err(MissingSecret);
          }
          var query := Encode(queryParams.items);
          assert query == SignedString(original, now);
          queryParams.Set(SignatureKey, Some(Text(Signature(secretKey.value, query, mac))));
          assert queryParams.items == SignedParams(original, now, secretKey.value, mac);
        }
        fullUrl := fullUrl + "?" + Encode(queryParams.items);
      }
      assert fullUrl == BuildRequest(url, if queryParams == null then None else Some(old(queryParams.items)), sign, httpMethod, apiKey, secretKey, now, mac).value.url;
      var headers: seq<Header> := [];
      if sign {
        headers := headers + [Header(ApiKeyHeader, apiKey)];
      }
      assert headers == Headers(sign, apiKey);
      var req := Request(fullUrl, httpMethod, headers);
      sent := Some(req);
      ret := Open(req, network);
    }

    /** A call whose dict literal is a fresh object, and a call that omits
        the dict and is given a fresh empty one: the intended behaviour. */
    method Send(c: Call, now: int, mac: Mac, network: Request -> Reply)
      returns (sent: Option<Request>, ret: Result<Json, Error>)
      ensures sent == Sent(c, apiKey, secretKey, now, mac)
      ensures ret == Fetch(c, apiKey, secretKey, now, mac, network)
    {
      var d := new Dict(c.params);
      sent, ret := GetUrlJson(c.url, d, c.sign, c.httpMethod, now, mac, network);
    }

    /** A call as binance.py makes it: a call that omits the dict hands
        geturl_json the shared default object, which keeps what earlier
        calls left in it and keeps what this call leaves in it. */
    method SendAsWritten(c: Call, now: int, mac: Mac, network: Request -> Reply)
      returns (sent: Option<Request>, ret: Result<Json, Error>)
      requires sharedDefault.Valid()
      modifies sharedDefault
      ensures var dict := if c.usesDefault then old(sharedDefault.items) else FromPairs(c.params);
        var built := BuildRequest(c.url, Some(dict), c.sign, c.httpMethod, apiKey, secretKey, now, mac);
        && sent == (if built.Ok? then Some(built.value) else None)
        && ret == Exchange(built, network)
      ensures sharedDefault.Valid()
      ensures c.usesDefault ==>
        sharedDefault.items == FinalParams(old(sharedDefault.items), c.sign, now, secretKey, mac)
      ensures !c.usesDefault ==> sharedDefault.items == old(sharedDefault.items)
    {
      if c.usesDefault {
        sent, ret := GetUrlJson(c.url, sharedDefault, c.sign, c.httpMethod, now, mac, network);
      } else {
        var d := new Dict(c.params);
        sent, ret := GetUrlJson(c.url, d, c.sign, c.httpMethod, now, mac, network);
      }
    }

    // -------------------------------------------------------------------
    // Endpoints (each builds its dict literal afresh)
    // -------------------------------------------------------------------

    /** ping(): whether the call returned `{}`. An HTTP error is swallowed
        into `{}` as well, so both count as success. An unsigned call reads
        neither the clock nor the secret; `0` and `NoMac` stand in for them. */
    method Ping(network: Request -> Reply) returns (r: Result<bool, Error>)
      ensures var reply := network(Request(V1Url("ping") + "?", "GET", []));
        && (r.Ok? <==> reply.Body? || reply.HttpError?)
        && (r.Ok? ==> (r.value <==> reply.HttpError? || reply == Body(EmptyObject)))
    {
      UnsignedCallRequest(PingCall(), apiKey, secretKey, 0, NoMac);
      var _, json := Send(PingCall(), 0, NoMac, network);
      r := if json.Ok? then Ok(json.value == EmptyObject) else Err(json.error);
    }

    /** get_server_time() up to the conversion of the milliseconds: the
        "serverTime" member of the reply. An HTTP error becomes `{}`, which
        has no such member. */
    method GetServerTime(network: Request -> Reply) returns (r: Result<Json, Error>)
      ensures var reply := network(Request(V1Url("time") + "?", "GET", []));
        && (reply.HttpError? ==> r == Err(KeyError("serverTime")))
        && (reply.Body? ==> r == Subscript(reply.json, "serverTime"))
        && (reply.Unparsable? || reply.Unreachable? ==> r == Dispatch(reply))
    {
      UnsignedCallRequest(ServerTimeCall(), apiKey, secretKey, 0, NoMac);
      var _, data := Send(ServerTimeCall(), 0, NoMac, network);
      r := if data.Ok? then Subscript(data.value, "serverTime") else data;
    }

    /** get_prices(): the price listing filed by symbol. An HTTP error gives
        `{}`, whose iteration is empty, so the result is the empty dict. */
    method GetPrices(network: Request -> Reply) returns (r: Result<seq<(string, Json)>, Error>)
      ensures var reply := network(Request(V1Url("ticker/allPrices") + "?", "GET", []));
        && (reply.HttpError? ==> r == Ok([]))
        && (reply.Body? ==> r == Filed(reply.json, PriceItem))
        && (reply.Unparsable? || reply.Unreachable? ==> r == Err(Dispatch(reply).error))
    {
      UnsignedCallRequest(PricesCall(), apiKey, secretKey, 0, NoMac);
      var _, coins := Send(PricesCall(), 0, NoMac, network);
      if coins.Err? {
        return Err(coins.error);
      }
      r := Collect(coins.value, PriceItem);
    }

    /** get_book_tickers(): the book-ticker listing filed by symbol, each
        symbol mapped to its four fields. */
    method GetBookTickers(network: Request -> Reply) returns (r: Result<seq<(string, BookTicker)>, Error>)
      ensures var reply := network(Request(V1Url("ticker/allBookTickers") + "?", "GET", []));
        && (reply.HttpError? ==> r == Ok([]))
        && (reply.Body? ==> r == Filed(reply.json, BookItem))
        && (reply.Unparsable? || reply.Unreachable? ==> r == Err(Dispatch(reply).error))
    {
      UnsignedCallRequest(BookTickersCall(), apiKey, secretKey, 0, NoMac);
      var _, coins := Send(BookTickersCall(), 0, NoMac, network);
      if coins.Err? {
        return Err(coins.error);
      }
      r := Collect(coins.value, BookItem);
    }

    /** new_order(...): a signed POST of the order items, the time in force
        fixed at good-till-cancelled. */
    method NewOrder(symbol: Arg, side: Arg, orderType: Arg, quantity: Arg, price: Arg,
                    newClientOrderId: Arg, stopPrice: Arg, icebergQty: Arg, recvWindow: Arg,
                    now: int, mac: Mac, network: Request -> Reply)
      returns (sent: Option<Request>, ret: Result<Json, Error>)
      ensures var c := NewOrderCall(symbol, side, orderType, quantity, price, newClientOrderId, stopPrice,
                                    icebergQty, recvWindow);
        ret == Fetch(c, apiKey, secretKey, now, mac, network)
      ensures secretKey.None? ==> sent == None && ret == Err(MissingSecret)
      ensures secretKey.Some? ==>
        var signed := SignedString(NewOrderItems(symbol, side, orderType, quantity, price, newClientOrderId,
                                                 stopPrice, icebergQty, recvWindow), now);
        sent == Some(Request(V3Url("order") + "?" + signed + "&"
                               + (SignatureKey + "=" + Signature(secretKey.value, signed, mac)),
                             "POST", [Header(ApiKeyHeader, apiKey)]))
      ensures secretKey.Some? && apiKey.None? ==> ret == Err(TypeError(NoneHeaderMessage))
      ensures secretKey.Some? && apiKey.Some? ==> sent.Some? && ret == Dispatch(network(sent.value))
    {
      var c := NewOrderCall(symbol, side, orderType, quantity, price, newClientOrderId, stopPrice,
                            icebergQty, recvWindow);
      SignedCallRequest(c, apiKey, secretKey, now, mac);
      sent, ret := Send(c, now, mac, network);
    }

    /** query_order(...): refused before any request unless an order id is
        given; otherwise a signed GET of the query items. */
    method QueryOrder(symbol: Arg, orderId: Arg, origClientOrderId: Arg, recvWindow: Arg,
                      now: int, mac: Mac, network: Request -> Reply)
      returns (sent: Option<Request>, ret: Result<Json, Error>)
      ensures orderId.None? && origClientOrderId.None? ==>
        sent == None && ret == Err(Exception(MissingOrderIdMessage))
      ensures orderId.Some? || origClientOrderId.Some? ==>
        ret == Fetch(QueryOrderCall(symbol, orderId, origClientOrderId, recvWindow).value,
                     apiKey, secretKey, now, mac, network)
      ensures (orderId.Some? || origClientOrderId.Some?) && secretKey.None? ==>
        sent == None && ret == Err(MissingSecret)
      ensures (orderId.Some? || origClientOrderId.Some?) && secretKey.Some? ==>
        var signed := SignedString([("symbol", symbol), ("orderId", orderId),
                                    ("origClientOrderId", origClientOrderId), ("recvWindow", recvWindow)], now);
        sent == Some(Request(V3Url("order") + "?" + signed + "&"
                               + (SignatureKey + "=" + Signature(secretKey.value, signed, mac)),
                             "GET", [Header(ApiKeyHeader, apiKey)]))
      ensures (orderId.Some? || origClientOrderId.Some?) && secretKey.Some? && apiKey.None? ==> ret == Err(TypeError(NoneHeaderMessage))
      ensures (orderId.Some? || origClientOrderId.Some?) && secretKey.Some? && apiKey.Some? ==> sent.Some? && ret == Dispatch(network(sent.value))
    {
      var call := QueryOrderCall(symbol, orderId, origClientOrderId, recvWindow);
      if call.Err? {
        return None, Err(call.error);
      }
      SignedCallRequest(call.value, apiKey, secretKey, now, mac);
      sent, ret := Send(call.value, now, mac, network);
    }

    /** cancel_order(...): the same check, then a signed DELETE. */
    method CancelOrder(symbol: Arg, orderId: Arg, origClientOrderId: Arg, newClientOrderId: Arg, recvWindow: Arg,
                       now: int, mac: Mac, network: Request -> Reply)
      returns (sent: Option<Request>, ret: Result<Json, Error>)
      ensures orderId.None? && origClientOrderId.None? ==>
        sent == None && ret == Err(Exception(MissingOrderIdMessage))
      ensures orderId.Some? || origClientOrderId.Some? ==>
        ret == Fetch(CancelOrderCall(symbol, orderId, origClientOrderId, newClientOrderId, recvWindow).value,
                     apiKey, secretKey, now, mac, network)
      ensures (orderId.Some? || origClientOrderId.Some?) && secretKey.None? ==>
        sent == None && ret == Err(MissingSecret)
      ensures (orderId.Some? || origClientOrderId.Some?) && secretKey.Some? ==>
        var signed := SignedString([("symbol", symbol), ("orderId", orderId), ("origClientOrderId", origClientOrderId),
                                    ("newClientOrderId", newClientOrderId), ("recvWindow", recvWindow)], now);
        sent == Some(Request(V3Url("order") + "?" + signed + "&"
                               + (SignatureKey + "=" + Signature(secretKey.value, signed, mac)),
                             "DELETE", [Header(ApiKeyHeader, apiKey)]))
      ensures (orderId.Some? || origClientOrderId.Some?) && secretKey.Some? && apiKey.None? ==> ret == Err(TypeError(NoneHeaderMessage))
      ensures (orderId.Some? || origClientOrderId.Some?) && secretKey.Some? && apiKey.Some? ==> sent.Some? && ret == Dispatch(network(sent.value))
    {
      var call := CancelOrderCall(symbol, orderId, origClientOrderId, newClientOrderId, recvWindow);
      if call.Err? {
        return None, Err(call.error);
      }
      SignedCallRequest(call.value, apiKey, secretKey, now, mac);
      sent, ret := Send(call.value, now, mac, network);
    }

    /** account_info() with a fresh empty dict: the query is the timestamp
        alone, then its signature. */
    method AccountInfo(now: int, mac: Mac, network: Request -> Reply)
      returns (sent: Option<Request>, ret: Result<Json, Error>)
      ensures ret == Fetch(AccountInfoCall(), apiKey, secretKey, now, mac, network)
      ensures secretKey.None? ==> sent == None && ret == Err(MissingSecret)
      ensures secretKey.Some? ==>
        var signed := TimestampKey + "=" + DecimalString(now);
        sent == Some(Request(V3Url("account") + "?" + signed + "&"
                               + (SignatureKey + "=" + Signature(secretKey.value, signed, mac)),
                             "GET", [Header(ApiKeyHeader, apiKey)]))
      ensures secretKey.Some? && apiKey.None? ==> ret == Err(TypeError(NoneHeaderMessage))
      ensures secretKey.Some? && apiKey.Some? ==> sent.Some? && ret == Dispatch(network(sent.value))
    {
      SignedCallRequest(AccountInfoCall(), apiKey, secretKey, now, mac);
      TimestampLast([], now);
      sent, ret := Send(AccountInfoCall(), now, mac, network);
    }
  }

  // ---------------------------------------------------------------------
  // The shared default dict
  // ---------------------------------------------------------------------

  /** Assigning a second key to a one-item dict appends it. */
  lemma PutSecond(a: Entry, k: string, v: Option<Value>)
    requires a.0 != k
    ensures Put([a], k, v) == [a, (k, v)]
  {
    assert [a][1..] == [];
  }

  /** What a signed call that omits its dict leaves in the shared default
      object when that object was empty: its timestamp, then its signature
      of `timestamp=<now>`. */
  lemma DefaultAfterSignedCall(secret: string, now: int, mac: Mac)
    ensures var left := FinalParams([], true, now, Some(secret), mac);
      left == [(TimestampKey, Some(Int(now))),
               (SignatureKey, Some(Text(Signature(secret, TimestampKey + "=" + DecimalString(now), mac))))]
  {
    var ts := (TimestampKey, Some(Int(now)));
    TimestampLast([], now);
    assert TimestampKey != SignatureKey by { assert TimestampKey[0] != SignatureKey[0]; }
    PutSecond(ts, SignatureKey, Some(Text(Signature(secret, SignedString([], now), mac))));
  }

  /** Stamping a dict that holds a timestamp and then a signature keeps
      both in place: the timestamp gets the new value, the signature stays. */
  lemma RestampLeftovers(t1: int, sig1: string, t2: int)
    ensures var left := [(TimestampKey, Some(Int(t1))), (SignatureKey, Some(Text(sig1)))];
      WithTimestamp(left, t2) == [(TimestampKey, Some(Int(t2))), (SignatureKey, Some(Text(sig1)))]
  {
    var ts1, st1 := (TimestampKey, Some(Int(t1))), (SignatureKey, Some(Text(sig1)));
    var left := [ts1, st1];
    assert left[..1] == [ts1];
    assert DropNone([ts1]) == DropNone([]) + [ts1];
    assert DropNone(left) == left;
  }

  /** Signing a dict that holds a timestamp and then a signature replaces
      that signature in place. */
  lemma ReplaceSignature(t: int, sig1: string, sig2: string)
    ensures Put([(TimestampKey, Some(Int(t))), (SignatureKey, Some(Text(sig1)))], SignatureKey, Some(Text(sig2)))
      == [(TimestampKey, Some(Int(t))), (SignatureKey, Some(Text(sig2)))]
  {
    var st1 := (SignatureKey, Some(Text(sig1)));
    assert [st1][1..] == [];
  }

  /** The urlencoding of a timestamp item and then a signature item:
      `timestamp=<t>&signature=<sig>`. */
  lemma TwoItemQuery(t: int, sig: string)
    requires forall i :: 0 <= i < |sig| ==> IsLowerHex(sig[i])
    ensures Encode([(TimestampKey, Some(Int(t))), (SignatureKey, Some(Text(sig)))])
      == TimestampKey + "=" + DecimalString(t) + "&" + (SignatureKey + "=" + sig)
  {
    EncodeTwo((TimestampKey, Some(Int(t))), (SignatureKey, Some(Text(sig))));
    TimestampItem(t);
    SignatureItem(sig);
  }

  /** A second account_info() as written signs the first one's leftovers:
      the string it signs carries the stale signature, and the query it
      sends is not the signed string followed by the signature item, as it
      is for a fresh dict. */
  lemma SharedDefaultResignsStaleSignature(apiKey: Option<string>, secret: string, t1: int, t2: int, mac: Mac)
    ensures var left := FinalParams([], true, t1, Some(secret), mac);
      var stale := SignatureKey + "=" + Signature(secret, TimestampKey + "=" + DecimalString(t1), mac);
      var signed := SignedString(left, t2);
      var req := BuildRequest(V3Url("account"), Some(left), true, "GET", apiKey, Some(secret), t2, mac);
      && signed == TimestampKey + "=" + DecimalString(t2) + "&" + stale
      && req.Ok?
      && req.value.url != V3Url("account") + "?" + signed + "&" + (SignatureKey + "=" + Signature(secret, signed, mac))
  {
    var left := FinalParams([], true, t1, Some(secret), mac);
    var sig1 := Signature(secret, TimestampKey + "=" + DecimalString(t1), mac);
    DefaultAfterSignedCall(secret, t1, mac);
    RestampLeftovers(t1, sig1, t2);
    TwoItemQuery(t2, sig1);
    var signed := SignedString(left, t2);
    var sig2 := Signature(secret, signed, mac);
    ReplaceSignature(t2, sig1, sig2);
    TwoItemQuery(t2, sig2);
    var sent := Encode(SignedParams(left, t2, secret, mac));
    assert |signed + "&" + (SignatureKey + "=" + sig2)| > |sent|;
  }

  /** An unsigned request over a dict holding a timestamp and then a
      signature sends both along. */
  lemma UnsignedOverLeftovers(url: string, t: int, sig: string, httpMethod: string,
                              apiKey: Option<string>, secret: Option<string>, now: int, mac: Mac)
    requires forall i :: 0 <= i < |sig| ==> IsLowerHex(sig[i])
    ensures var left := [(TimestampKey, Some(Int(t))), (SignatureKey, Some(Text(sig)))];
      BuildRequest(url, Some(left), false, httpMethod, apiKey, secret, now, mac).value.url
        == url + "?" + (TimestampKey + "=" + DecimalString(t) + "&" + (SignatureKey + "=" + sig))
  {
    var left := [(TimestampKey, Some(Int(t))), (SignatureKey, Some(Text(sig)))];
    DropNoneWithoutNone(left);
    RequestUrl(url, left, false, httpMethod, apiKey, secret, now, mac);
    TwoItemQuery(t, sig);
  }

  /** An unsigned call that omits its dict after a signed one did (ping()
      after account_info(), say) sends the signed call's timestamp and
      signature along. */
  lemma SharedDefaultLeaksIntoUnsignedCalls(apiKey: Option<string>, secret: string, t1: int, mac: Mac)
    ensures var left := FinalParams([], true, t1, Some(secret), mac);
      var stale := SignatureKey + "=" + Signature(secret, TimestampKey + "=" + DecimalString(t1), mac);
      BuildRequest(V1Url("ping"), Some(left), false, "GET", apiKey, Some(secret), 0, NoMac).value.url
        == V1Url("ping") + "?" + (TimestampKey + "=" + DecimalString(t1) + "&" + stale)
  {
    var sig1 := Signature(secret, TimestampKey + "=" + DecimalString(t1), mac);
    DefaultAfterSignedCall(secret, t1, mac);
    UnsignedOverLeftovers(V1Url("ping"), t1, sig1, "GET", apiKey, Some(secret), 0, NoMac);
  }
}
