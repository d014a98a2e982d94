# binance.py request pipeline, in Dafny

This project models the request layer of a small Python client for the
Binance REST API (`binance.py`). At its centre is `geturl_json`, which:

- filters the caller's parameter dict in place, dropping every `None` value;
- on a signed call, adds a `timestamp` item, url-encodes the dict, signs that
  string with HMAC-SHA256 and adds the hex digest as a `signature` item;
- appends the url-encoded dict to the URL and attaches the `X-MBX-APIKEY`
  header on signed calls;
- returns the decoded JSON body, or `{}` when the server answers with an
  HTTP error.

Around it the model has the URL builders and the URL catalogue, one function
per endpoint giving the dict literal it passes, the order-id check of
`query_order` and `cancel_order`, the fixed good-till-cancelled time in
force of `new_order`, the `get_prices` and `get_book_tickers` folds that
file a ticker listing by symbol, and `ping`.

Modules:

- `Results`: `Option` and `Result`.
- `UrlEncode`: what `urllib.parse.urlencode` does with the items.
  - `str()` of an int (decimal text) and of `None`.
  - UTF-8 encoding.
  - `quote_plus`: unreserved characters are kept, a space becomes `+`,
    and every other character becomes `%XX` of its UTF-8 bytes.
  - `unquote_plus` and UTF-8 decoding, as the reading direction of `quote_plus`.
  - `key=value` items joined by `&`.
  - Lower-case hex for `hexdigest()`.
- `Dicts`: a Python dict as its insertion-ordered items.
  - Assignment keeps the position of a present key and appends a new key.
  - `del`, lookup, and the evaluation of a dict literal.
  - A `Dict` class for the dict that `geturl_json` mutates in place.
- `Http`: decoded JSON values, requests, and what the network can answer.
  - Python's `value[key]` and `for x in value` on decoded JSON.
  - The rule that turns an HTTP error into `{}`.
- `Signing`: the `geturl_json` pipeline as functions of the caller's items,
  with its properties as lemmas.
- `Tickers`: the two folds, as a loop (`Collect`) proved equal to a
  recursive definition whose properties are lemmas.
- `Binance`: URLs, the endpoint functions, and the `Client` class.
  - `Client` holds the module state: the credentials and the shared
    default dict.
  - `Client.GetUrlJson` is the imperative `geturl_json`.
  - The endpoint methods are proved against the `Signing` functions.

The clock (`timestamp()`), HMAC-SHA256 and the network are parameters.
`now` is the value `timestamp()` returns. `mac` maps key bytes and message
bytes to digest bytes. `network` maps a request to a `Reply`: a parsed body,
an unparsable body, an HTTP error, or a failure to connect.

Two behaviours of the code are worth stating plainly:

- An HTTP error is logged and swallowed into `{}` (binance.py:83-88).
- Prices and quantities are returned as the JSON values received.

## Model

| member | source | states |
|---|---|---|
| Binance.V1Url | binance.py:26-27 | the URL is the API base, then `v1/`, then the endpoint, unchanged |
| Binance.V3Url | binance.py:30-31 | the URL is the API base, then `v3/`, then the endpoint, unchanged |
| Binance.VersionedUrlsDiffer | binance.py:26-31 | a v1 URL and a v3 URL are never equal, whatever the endpoints; each builder is injective |
| Binance.CatalogUnderBase | binance.py:34-53 | every URL of the catalogue starts with the API base; `ticker_24hr` is `…/api/v1//ticker/24hr`, with a doubled slash |
| Binance.PingCall | binance.py:99-100 | ping is an unsigned GET of the v1 `ping` URL that omits its dict |
| Binance.ServerTimeCall | binance.py:103-104 | get_server_time is an unsigned GET of the v1 `time` URL that omits its dict |
| Binance.DepthCall | binance.py:110-111 | get_depth is an unsigned GET of `depth` with the items symbol, limit in that order |
| Binance.AggTradesCall | binance.py:114-122 | get_aggtrades is an unsigned GET of `aggTrades` with its five items in source order |
| Binance.CandlesticksCall | binance.py:125-134 | get_candlesticks is an unsigned GET of `klines` with its five items in source order |
| Binance.PricesCall | binance.py:137-138 | get_prices requests the v1 `ticker/allPrices` URL, unsigned, omitting its dict |
| Binance.BookTickersCall | binance.py:147-148 | get_book_tickers requests the v1 `ticker/allBookTickers` URL, unsigned, omitting its dict |
| Binance.PrevDayCall | binance.py:162-163 | get_prevday is an unsigned GET of the doubled-slash 24-hour URL with the symbol item |
| Binance.NewOrderItems | binance.py:170-181 | the new_order dict has ten distinct keys and no timestamp or signature key; its fourth item is `timeInForce: "GTC"` |
| Binance.NewOrderCall | binance.py:169-183 | new_order is a signed POST of those items to the v3 `order` URL |
| Binance.NewOrderGoodTillCancelled | binance.py:174 | whatever the arguments, the signed dict holds `"GTC"` under `timeInForce` (it survives the None filter and the timestamp) |
| Binance.QueryOrderCall | binance.py:186-197 | the call is refused with the exact exception message if and only if both order ids are None; otherwise it is a signed GET of the four items to `order` |
| Binance.CancelOrderCall | binance.py:200-212 | the same refusal, if and only if both ids are None; otherwise a signed DELETE of the five items to `order` |
| Binance.OpenOrdersCall | binance.py:215-216 | open_orders is a signed GET of `openOrders` with the symbol item |
| Binance.AllOrdersCall | binance.py:219-226 | all_orders is a signed GET of `allOrders` with three items in source order |
| Binance.AccountInfoCall | binance.py:229-230 | account_info is a signed GET of `account` that omits its dict |
| Binance.MyTradesCall | binance.py:233-240 | my_trades is a signed GET of `myTrades` with three items in source order |
| Binance.UnsignedCallRequest | binance.py:57-76 | an unsigned call requests `url?` and its surviving items, with no header, and returns what the network's reply to exactly that request decodes to |
| Binance.SignedCallRequest | binance.py:57-88 | a signed call sends nothing without a secret and fails for every network; with a secret it requests `url?`, the signed string, `&signature=` and the digest of that string, with the API-key header; with a secret but no API key the call raises a TypeError for every network, and with both it returns what the network's reply to that request decodes to |
| Binance.FilterNone | binance.py:57-60 | the loop over the key snapshot leaves the dict holding exactly the items whose value is not None, in their order |
| Binance.Client.constructor | binance.py:18-19 | no credentials at import; the default dict starts empty |
| Binance.Client.SetApiKey | binance.py:91-96 | the key and the secret are replaced by the arguments |
| Binance.Client.GetUrlJson | binance.py:56-88 | the request sent and the value returned are those of the request-building and reply functions; the caller's dict is left filtered, stamped and signed as those functions say |
| Binance.Client.Send | binance.py:56-88 | a call with a fresh dict sends and returns what the request-building and reply functions give for its literal |
| Binance.Client.SendAsWritten | binance.py:56 | a call that omits its dict works on, and leaves its results in, the one shared default object |
| Binance.Client.Ping | binance.py:99-100 | with a fresh dict, requests `…/v1/ping?`; succeeds if and only if the reply is a body or an HTTP error, and is true exactly on an HTTP error or a `{}` body |
| Binance.Client.GetServerTime | binance.py:103-105 | with a fresh dict, the `serverTime` member of the body; a KeyError on an HTTP error; the network's error otherwise |
| Binance.Client.GetPrices | binance.py:137-144 | with a fresh dict, the listing filed by symbol as the fold defines it; the empty dict on an HTTP error |
| Binance.Client.GetBookTickers | binance.py:147-159 | with a fresh dict, the listing filed by symbol into four-field records; the empty dict on an HTTP error |
| Binance.Client.NewOrder | binance.py:169-183 | with a secret, the POST URL is the signed string of the order items then their signature; without one, MissingSecret and no request; with a secret but no API key, a TypeError before the network is asked; with both, the decoded reply |
| Binance.Client.QueryOrder | binance.py:186-197 | no request and the exception when both ids are None; otherwise the signed GET whose query is the signed string then its signature, a TypeError if no API key is set, and the decoded reply when one is |
| Binance.Client.CancelOrder | binance.py:200-212 | the same for the signed DELETE, including the TypeError when no API key is set |
| Binance.Client.AccountInfo | binance.py:229-230 | with a fresh dict the query is `timestamp=<now>&signature=<hmac of timestamp=<now>>`; a TypeError if no API key is set, the decoded reply when one is |
| Binance.DefaultAfterSignedCall | binance.py:56-66 | a signed call that omits its dict leaves a timestamp and then its signature in the shared default object |
| Binance.SharedDefaultResignsStaleSignature | binance.py:56-68 | the second account_info signs `timestamp=<t2>&signature=<stale>`, and its query is not that string followed by the new signature |
| Binance.SharedDefaultLeaksIntoUnsignedCalls | binance.py:56-68 | a ping after a signed default call sends the stale timestamp and signature |
| Signing.DropNoneMembers | binance.py:57-60 | an item survives the filter if and only if it was there and its value is not None |
| Signing.DropNoneConcat | binance.py:57-60 | the filter works item by item: filtering a concatenation concatenates the filtered parts, so relative order is kept |
| Signing.DropNoneIdempotent | binance.py:57-60 | filtering twice is filtering once |
| Signing.DropNoneKeys | binance.py:57-60 | the filter adds no key and keeps the keys distinct |
| Signing.FilterStep | binance.py:58-60 | one loop turn: the current key's item is found under it, and deleting it when None (or keeping it) extends the filtered prefix by one item |
| Signing.TimestampItem | binance.py:63-65 | the timestamp item encodes as `timestamp=` and the decimal text of `now` |
| Signing.TimestampLast | binance.py:62-65 | when the caller passed no timestamp, it is appended after all surviving items; the signed string is their encoding, then `&timestamp=<now>` |
| Signing.OneTimestamp | binance.py:63 | the signed dict has distinct keys and exactly one timestamp, holding `now`; a signature key is there only if the caller passed one |
| Signing.SignatureLast | binance.py:65-68 | the transmitted query is the signed string, `&signature=`, and the digest of that string; split at `&`, it is the signed string's items plus one more |
| Signing.UnsignedAddsNothing | binance.py:57-68 | an unsigned call sends exactly the surviving items: no timestamp, no signature |
| Signing.HeaderIffSigned | binance.py:62-76 | the API-key header is attached if and only if the call is signed; building the request fails if and only if it must sign a dict with no secret |
| Signing.RequestUrl | binance.py:57-68 | the URL is unchanged without a dict; `url?` plus the surviving items when unsigned; `url?`, the signed string and its signature when signed |
| Signing.HttpErrorLooksLikeEmptyBody | binance.py:78-88 | a built request returns `{}` if and only if it can be opened and the reply is an HTTP error or a `{}` body |
| Http.Dispatch | binance.py:78-88 | an HTTP error gives `{}`; a body gives itself; an unparsable body raises InvalidJson and a connection failure raises NetworkFailure with its reason; the call succeeds if and only if the reply is a body or an HTTP error |
| Http.Subscript | binance.py:105 | `value[key]` succeeds if and only if the value is an object with that member, and gives the member |
| Http.Open | binance.py:76-88 | a request with a None header value raises a TypeError before the network is asked; otherwise the call succeeds if and only if the reply is a body or an HTTP error, and returns what `Dispatch` gives |
| Http.Iterate | binance.py:141 | iteration fails with a TypeError if and only if the value is null, a boolean or a number; a list visits its elements; an empty object, list or string visits nothing |
| Tickers.SymbolOf | binance.py:142 | a symbol read is the string stored under `symbol` |
| Tickers.PriceItem | binance.py:142 | the item is the symbol and the price; the price is read before the symbol, so a missing price is the error reported |
| Tickers.BookItem | binance.py:152-157 | the item is the symbol and the four fields, copied verbatim; it succeeds if and only if all five reads succeed |
| Tickers.FiledOk | binance.py:140-144 | the fold succeeds if and only if every record yields an item |
| Tickers.FiledFirstError | binance.py:140-144 | a failing fold reports the error of the first failing record, and every record before it yields an item |
| Tickers.FiledErrPersists | binance.py:140-144 | once a prefix fails, the whole fold fails with the same error |
| Tickers.FiledKeys | binance.py:140-144 | the result's keys are distinct and are exactly the symbols of the listing |
| Tickers.FiledLastWins | binance.py:140-144 | each symbol maps to the value of the last record carrying it |
| Tickers.Collect | binance.py:140-159 | the loop returns what the fold defines |
| Dicts.Lookup | binance.py:59 | a lookup succeeds if and only if the key is present, and finds an item of the dict |
| Dicts.PutSpec | binance.py:63-66 | assignment keeps the key order, appends a new key at the end, and stores the value |
| Dicts.PutKeepsDistinct | binance.py:63-66 | assignment keeps the keys distinct |
| Dicts.PutOthers | binance.py:63-66 | assignment leaves every other key's value alone |
| Dicts.FromPairs | binance.py:170-181 | a dict literal has distinct keys |
| Dicts.FromDistinctPairs | binance.py:170-181 | a literal with distinct keys is its items in order |
| Dicts.RemoveAt | binance.py:60 | deleting a key removes just its item and keeps the rest in order |
| Dicts.LookupMember | binance.py:59 | in a dict, each item is what its key looks up |
| Dicts.Dict.KeyList | binance.py:58 | the snapshot is the keys in order |
| Dicts.Dict.Get | binance.py:59 | the value read is the one stored under the key |
| Dicts.Dict.Delete | binance.py:60 | the dict loses exactly that key's item and keeps distinct keys |
| Dicts.Dict.Set | binance.py:63-66 | the dict becomes the assignment of the value to the key |
| UrlEncode.DecimalStringRoundTrip | binance.py:63-65 | the timestamp's decimal text reads back as the number, with a sign for negatives |
| UrlEncode.Utf8RoundTrip | binance.py:66 | the UTF-8 bytes of a character decode back to its code point |
| UrlEncode.HexLower | binance.py:66 | the digest is rendered as two lower-case hex characters per byte |
| UrlEncode.HexRoundTrip | binance.py:66 | the hex rendering reads back as the digest bytes |
| UrlEncode.Quote | binance.py:65-68 | quoted text is made only of unreserved characters, `+` and `%`, so it never holds the separators `&` and `=`; it is never shorter than the input |
| UrlEncode.QuoteRoundTrip | binance.py:65-68 | quoting loses nothing: `unquote_plus` of the quoted text, decoded as UTF-8, is the original text |
| UrlEncode.QuoteUnreserved | binance.py:65-68 | text of unreserved characters is left as it is |
| UrlEncode.EncodeSegments | binance.py:65-68 | splitting the encoding at `&` gives back the encoded items in order |

## Left out

- The network, TLS and the disabled certificate checks (binance.py:12-14, 72, 81) are not modelled. The network is the parameter `network`, and a reply is assumed to depend only on the request.
- `timestamp()` (binance.py:22-23) reads the wall clock and rounds a float. Its value is the parameter `now`.
- HMAC-SHA256 is the parameter `mac`; its internals are not modelled. The encoding of the key and message as UTF-8, and `hexdigest()`, are modelled.
- `json.loads` parsing is not modelled. A reply is given already decoded, or as unparsable. Repeated member names keep the last one.
- `print` logging (binance.py:70, 85-86) is not modelled.
- Binance.Client.GetServerTime: returns the raw `serverTime` value. The division by 1000.0 and `datetime.fromtimestamp` are float and clock-zone work (binance.py:105).
- Parameter values are strings, ints or None. Floats and other Python objects passed as arguments are not modelled. Their `str()` is float formatting.
- Tickers.SymbolOf: a `symbol` that is not a JSON string is reported as a TypeError. Python would use a number, null or a boolean as the key; an array or object is unhashable and raises TypeError, as here.
- Http.Iterate: iterating an object yields its member names, but only whether there are any is used. That is the case where an HTTP error gives `{}`.
- Binance.Client.Ping, Binance.Client.GetServerTime, Binance.Client.GetPrices, Binance.Client.GetBookTickers: an unsigned call reads neither the clock nor the secret. Fixed stand-ins are passed for them.
- The endpoint methods of the remaining unsigned and signed wrappers (depth, aggregate trades, candlesticks, 24-hour ticker, open orders, all orders, my trades) are their `…Call` functions together with `Client.Send`. No separate method is written for each.

## Findings

| source | as written | input that shows it | evidently intended | confidence | as-written member | corrected member |
|---|---|---|---|---|---|---|
| binance.py:56, 229-230 | `query_params={}` is one dict object shared by every call that omits it. `geturl_json` filters, stamps and signs that object in place, so the stamps and signatures stay in it. | Call `account_info()` twice with a secret set. The second call signs `timestamp=<t2>&signature=<first signature>`, so the query it sends is not the signed string followed by its signature. A later `ping()` sends `timestamp=…&signature=…` too. | Each call works on a fresh empty dict. The query is then `timestamp=<now>&signature=<hmac of timestamp=<now>>`. | not executed | Binance.Client.SendAsWritten, Binance.SharedDefaultResignsStaleSignature | Binance.Client.Send, Binance.Client.AccountInfo |
