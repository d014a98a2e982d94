/**
 * The request-construction pipeline of geturl_json, as functions of the
 * caller's parameter dict: drop the None values, add the timestamp on a
 * signed call, sign the url-encoded items with HMAC-SHA256, append the
 * signature, and encode the items again for the query string.
 */
module Signing {

  import opened Results
  import opened UrlEncode
  import opened Dicts
  import opened Http

  /** One item of the parameter dict; a value of None is Python's None. */
  type Entry = (string, Option<Value>)

  /** HMAC-SHA256 as a function of the key bytes and the message bytes. */
  type Mac = (seq<Byte>, seq<Byte>) -> seq<Byte>

  const TimestampKey: string := "timestamp"
  const SignatureKey: string := "signature"
  const ApiKeyHeader: string := "X-MBX-APIKEY"

  /** The items that survive the filter loop: those whose value is not None. */
  function DropNone(es: seq<Entry>): seq<Entry>
  {
    if es == [] then []
    else
      var last := es[|es| - 1];
      DropNone(es[..|es| - 1]) + (if last.1.Some? then [last] else [])
  }

  /** The dict after the timestamp is assigned (the current epoch
      milliseconds, given here as `now`). */
  function WithTimestamp(es: seq<Entry>, now: int): seq<Entry>
  {
    Put(DropNone(es), TimestampKey, Some(Int(now)))
  }

  /** The string that is signed: the url-encoded dict with its timestamp. */
  function SignedString(es: seq<Entry>, now: int): string
  {
    Encode(WithTimestamp(es, now))
  }

  /** hmac.new(secret.encode("utf8"), msg.encode("utf8"), sha256).hexdigest() */
  function Signature(secret: string, msg: string, mac: Mac): string
  {
    HexLower(mac(Utf8Bytes(secret), Utf8Bytes(msg)))
  }

  /** The dict after the signature is assigned. */
  function SignedParams(es: seq<Entry>, now: int, secret: string, mac: Mac): seq<Entry>
  {
    Put(WithTimestamp(es, now), SignatureKey, Some(Text(Signature(secret, SignedString(es, now), mac))))
  }

  /** What the caller's dict holds once geturl_json is done with it, or once
      it raised because no secret was configured (the timestamp is already
      in the dict at that point). */
  function FinalParams(es: seq<Entry>, sign: bool, now: int, secret: Option<string>, mac: Mac): seq<Entry>
  {
    if !sign then DropNone(es)
    else if secret.None? then WithTimestamp(es, now)
    else SignedParams(es, now, secret.value, mac)
  }

  /** The headers of the request: the API key on a signed call only. */
  function Headers(sign: bool, apiKey: Option<string>): seq<Header>
  {
    if sign then [Header(ApiKeyHeader, apiKey)] else []
  }

  /** The request geturl_json hands to urlopen, or the exception it raises
      first. `params` is None when the caller passed None for the dict. */
  function BuildRequest(url: string, params: Option<seq<Entry>>, sign: bool, httpMethod: string,
                        apiKey: Option<string>, secret: Option<string>, now: int, mac: Mac): Result<Request, Error>
  {
    match params
    case None => Ok(Request(url, httpMethod, Headers(sign, apiKey)))
    case Some(es) =>
      if sign && secret.None? then Err(MissingSecret)
      else Ok(Request(url + "?" + Encode(FinalParams(es, sign, now, secret, mac)), httpMethod, Headers(sign, apiKey)))
  }

  /** What geturl_json returns or raises for a built request and a network. */
  function Exchange(built: Result<Request, Error>, network: Request -> Reply): Result<Json, Error>
  {
    match built
    case Err(e) => Err(e)
    case Ok(req) => Open(req, network)
  }

  // ---------------------------------------------------------------------
  // The filter
  // ---------------------------------------------------------------------

  /** The filter keeps exactly the items whose value is not None, unchanged. */
  lemma {:induction false} DropNoneMembers(es: seq<Entry>)
    ensures forall e :: e in DropNone(es) <==> e in es && e.1.Some?
  {
    if es != [] {
      var init, last := es[..|es| - 1], es[|es| - 1];
      DropNoneMembers(init);
      assert es == init + [last];
    }
  }

  /** The filter works item by item and keeps their relative order: the
      filtered concatenation is the concatenation of the filtered parts. */
  lemma {:induction false} DropNoneConcat(a: seq<Entry>, b: seq<Entry>)
    ensures DropNone(a + b) == DropNone(a) + DropNone(b)
    decreases |b|
  {
    if b == [] {
      assert a + b == a;
    } else {
      var b', last := b[..|b| - 1], b[|b| - 1];
      assert (a + b)[..|a + b| - 1] == a + b';
      DropNoneConcat(a, b');
    }
  }

  /** Filtering twice is filtering once. */
  lemma {:induction false} DropNoneIdempotent(es: seq<Entry>)
    ensures DropNone(DropNone(es)) == DropNone(es)
  {
    if es != [] {
      var init, last := es[..|es| - 1], es[|es| - 1];
      DropNoneIdempotent(init);
      DropNoneConcat(DropNone(init), if last.1.Some? then [last] else []);
      if last.1.Some? {
        assert DropNone([last]) == DropNone([]) + [last];
      }
    }
  }

  /** One turn of the filter loop over the key snapshot: with the first `i`
      items filtered, item `i` is still found under its own key, and
      deleting it when its value is None (keeping it otherwise) leaves the
      first `i + 1` items filtered. */
  lemma FilterStep(es: seq<Entry>, i: nat)
    requires DistinctKeys(es) && i < |es|
    ensures var cur := DropNone(es[..i]) + es[i..];
      && Lookup(cur, es[i].0) == Some(es[i].1)
      && (es[i].1.None? ==> Remove(cur, es[i].0) == DropNone(es[..i + 1]) + es[i + 1..])
      && (es[i].1.Some? ==> cur == DropNone(es[..i + 1]) + es[i + 1..])
  {
    var a, e, b := DropNone(es[..i]), es[i], es[i + 1..];
    assert DropNone(es[..i + 1]) == a + (if e.1.Some? then [e] else []) by {
      assert es[..i + 1][..i] == es[..i];
    }
    assert a + es[i..] == a + [e] + b by {
      assert es[i..] == [e] + b;
    }
    assert e.0 !in Keys(a) by {
      DropNoneKeys(es[..i]);
      forall j | 0 <= j < i ensures Keys(es[..i])[j] != e.0 {
        assert es[j].0 != es[i].0;
      }
    }
    LookupAt(a, e, b);
    RemoveAt(a, e, b);
  }

  /** A dict without None values passes the filter unchanged. */
  lemma {:induction false} DropNoneWithoutNone(es: seq<Entry>)
    requires forall i :: 0 <= i < |es| ==> es[i].1.Some?
    ensures DropNone(es) == es
  {
    if es != [] {
      DropNoneWithoutNone(es[..|es| - 1]);
    }
  }

  lemma AppendKeepsDistinct(s: seq<Entry>, e: Entry)
    requires DistinctKeys(s) && e.0 !in Keys(s)
    ensures DistinctKeys(s + [e])
  {
    forall i, j | 0 <= i < j < |s + [e]| ensures (s + [e])[i].0 != (s + [e])[j].0 {
      if j == |s| { assert Keys(s)[i] == s[i].0; }
    }
  }

  /** The filter adds no key, and the filtered dict is still a dict. */
  lemma {:induction false} DropNoneKeys(es: seq<Entry>)
    ensures forall k :: k in Keys(DropNone(es)) ==> k in Keys(es)
    ensures DistinctKeys(es) ==> DistinctKeys(DropNone(es))
  {
    if es != [] {
      var init, last := es[..|es| - 1], es[|es| - 1];
      DropNoneKeys(init);
      KeysAppend(init, [last]);
      assert es == init + [last];
      KeysAppend(DropNone(init), if last.1.Some? then [last] else []);
      if DistinctKeys(es) && last.1.Some? {
        assert last.0 !in Keys(init) by {
          forall i | 0 <= i < |init| ensures Keys(init)[i] != last.0 { assert es[i].0 != es[|es| - 1].0; }
        }
        AppendKeepsDistinct(DropNone(init), last);
      }
    }
  }

  // ---------------------------------------------------------------------
  // The signed string
  // ---------------------------------------------------------------------

  /** Every character of a decimal string is left alone by quote_plus. */
  lemma QuoteDecimal(n: int)
    ensures Quote(DecimalString(n)) == DecimalString(n)
  {
    var s := DecimalString(n);
    forall i | 0 <= i < |s| ensures IsUnreserved(s[i]) {
      if n < 0 && i > 0 { assert s[i] == Digits(-n)[i - 1]; }
    }
    QuoteUnreserved(s);
  }

  lemma TimestampItem(now: int)
    ensures Pair((TimestampKey, Some(Int(now)))) == TimestampKey + "=" + DecimalString(now)
  {
    QuoteUnreserved(TimestampKey);
    assert Str(Some(Int(now))) == DecimalString(now);
    QuoteDecimal(now);
  }

  lemma SignatureItem(sig: string)
    requires forall i :: 0 <= i < |sig| ==> IsLowerHex(sig[i])
    ensures Pair((SignatureKey, Some(Text(sig)))) == SignatureKey + "=" + sig
  {
    QuoteUnreserved(SignatureKey);
    QuoteUnreserved(sig);
  }

  /** When the caller passed no timestamp, the timestamp is appended after
      every surviving caller item, so the signed string is the encoded
      caller items followed by one `timestamp=<now>` item. */
  lemma TimestampLast(es: seq<Entry>, now: int)
    requires TimestampKey !in Keys(es)
    ensures WithTimestamp(es, now) == DropNone(es) + [(TimestampKey, Some(Int(now)))]
    ensures var item := TimestampKey + "=" + DecimalString(now);
      SignedString(es, now) == (if DropNone(es) == [] then item else Encode(DropNone(es)) + "&" + item)
  {
    var d, t := DropNone(es), (TimestampKey, Some(Int(now)));
    DropNoneKeys(es);
    assert TimestampKey !in Keys(d);
    PutAbsentAppends(d, TimestampKey, Some(Int(now)));
    assert WithTimestamp(es, now) == d + [t];
    EncodeAppend(d, t);
    TimestampItem(now);
  }

  /** On a signed call the dict holds exactly one timestamp, with the value
      `now` (a caller's own timestamp is overwritten in place), and it holds
      a signature only if the caller passed one. */
  lemma OneTimestamp(es: seq<Entry>, now: int)
    requires DistinctKeys(es)
    ensures DistinctKeys(WithTimestamp(es, now))
    ensures Lookup(WithTimestamp(es, now), TimestampKey) == Some(Some(Int(now)))
    ensures SignatureKey in Keys(WithTimestamp(es, now)) ==> SignatureKey in Keys(es)
  {
    DropNoneKeys(es);
    PutKeepsDistinct(DropNone(es), TimestampKey, Some(Int(now)));
    PutSpec(DropNone(es), TimestampKey, Some(Int(now)));
  }

  /** When the caller passed no signature, the transmitted query is the
      signed string followed by `&signature=` and the hex digest of the HMAC
      of that very string: the signature is the last item and nothing before
      it is reordered or re-encoded between signing and sending. */
  lemma SignatureLast(es: seq<Entry>, now: int, secret: string, mac: Mac)
    requires SignatureKey !in Keys(es)
    ensures var signed := SignedString(es, now);
      var item := SignatureKey + "=" + Signature(secret, signed, mac);
      && Encode(SignedParams(es, now, secret, mac)) == signed + "&" + item
      && Segments(Encode(SignedParams(es, now, secret, mac))) == Segments(signed) + [item]
  {
    var w := WithTimestamp(es, now);
    var signed := SignedString(es, now);
    var sig := Signature(secret, signed, mac);
    DropNoneKeys(es);
    PutSpec(DropNone(es), TimestampKey, Some(Int(now)));
    assert SignatureKey !in Keys(w);
    PutAbsentAppends(w, SignatureKey, Some(Text(sig)));
    assert w != [] by { assert TimestampKey in Keys(w); }
    EncodeAppend(w, (SignatureKey, Some(Text(sig))));
    SignatureItem(sig);
    PairHasNoSeparator((SignatureKey, Some(Text(sig))));
    SegmentsAfterSeparator(signed, Pair((SignatureKey, Some(Text(sig)))));
  }

  /** An unsigned call sends exactly the surviving caller items: no
      timestamp and no signature is added. */
  lemma UnsignedAddsNothing(es: seq<Entry>, now: int, secret: Option<string>, mac: Mac)
    ensures FinalParams(es, false, now, secret, mac) == DropNone(es)
    ensures forall k :: k in Keys(FinalParams(es, false, now, secret, mac)) ==> k in Keys(es)
  {
    DropNoneKeys(es);
  }

  // ---------------------------------------------------------------------
  // The request
  // ---------------------------------------------------------------------

  /** The API-key header is attached if and only if the call is signed, and
      building the request fails if and only if it must sign a dict with
      no secret configured. */
  lemma HeaderIffSigned(url: string, params: Option<seq<Entry>>, sign: bool, httpMethod: string,
                        apiKey: Option<string>, secret: Option<string>, now: int, mac: Mac)
    ensures var r := BuildRequest(url, params, sign, httpMethod, apiKey, secret, now, mac);
      && (r.Err? <==> sign && params.Some? && secret.None?)
      && (r.Ok? ==> r.value.httpMethod == httpMethod
                    && (sign <==> Header(ApiKeyHeader, apiKey) in r.value.headers)
                    && (!sign ==> r.value.headers == []))
  {
  }

  /** The URL that is requested, case by case: unchanged without a dict;
      `url?` and the surviving items on an unsigned call; `url?`, the signed
      string, and the signature on a signed call. */
  lemma RequestUrl(url: string, es: seq<Entry>, sign: bool, httpMethod: string,
                   apiKey: Option<string>, secret: Option<string>, now: int, mac: Mac)
    ensures BuildRequest(url, None, sign, httpMethod, apiKey, secret, now, mac).value.url == url
    ensures !sign ==> BuildRequest(url, Some(es), sign, httpMethod, apiKey, secret, now, mac).value.url
                      == url + "?" + Encode(DropNone(es))
    ensures sign && secret.Some? && SignatureKey !in Keys(es) ==>
      var signed := SignedString(es, now);
      BuildRequest(url, Some(es), sign, httpMethod, apiKey, secret, now, mac).value.url
        == url + "?" + signed + "&" + (SignatureKey + "=" + Signature(secret.value, signed, mac))
  {
    if sign && secret.Some? && SignatureKey !in Keys(es) {
      var signed := SignedString(es, now);
      var item := SignatureKey + "=" + Signature(secret.value, signed, mac);
      SignatureLast(es, now, secret.value, mac);
      ConcatAssoc(url + "?", signed + "&", item);
      ConcatAssoc(url + "?", signed, "&");
    }
  }

  /** An HTTP error is indistinguishable from a successful reply whose body
      is `{}`: once the request can be opened, both make the call return
      the empty dict, and nothing else does. */
  lemma HttpErrorLooksLikeEmptyBody(req: Request, network: Request -> Reply)
    ensures Exchange(Ok(req), network) == Ok(EmptyObject)
      <==> !HasNoneHeader(req) && (network(req).HttpError? || network(req) == Body(EmptyObject))
  {
  }
}
