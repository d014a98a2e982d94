/**
 * What crosses the wire: the request the client builds, the reply the
 * network gives back, the JSON value a successful reply decodes to, and the
 * exceptions a call can raise. The network itself is not modelled; a call
 * is given the reply as a function of the request.
 */
module Http {

  import opened Results

  /** A value decoded by json.loads. Numbers are kept as their text: the
      client never converts them. An object keeps its members in order. */
  datatype Json =
    | JNull
    | JBool(b: bool)
    | JNum(text: string)
    | JStr(s: string)
    | JArr(elems: seq<Json>)
    | JObj(members: seq<(string, Json)>)

  /** The Python dict `{}`. */
  const EmptyObject: Json := JObj([])

  /** The exceptions a call can raise. */
  datatype Error =
    | Exception(msg: string)      // raised by the client itself (query_order, cancel_order)
    | MissingSecret               // signing with no secret configured: None has no encode()
    | NetworkFailure(reason: string) // urlopen failing other than with an HTTP status
    | InvalidJson                 // json.loads rejecting the body
    | KeyError(key: string)       // subscripting a JSON object with a missing key
    | TypeError(msg: string)      // subscripting or iterating a value that does not allow it,
                                  // or a header whose value is None

  /** An HTTP request header as handed to `add_header`; the value is None
      when no API key was configured. */
  datatype Header = Header(name: string, value: Option<string>)

  /** The request handed to urlopen. */
  datatype Request = Request(url: string, httpMethod: string, headers: seq<Header>)

  /** What urlopen and json.loads make of a request. */
  datatype Reply =
    | Body(json: Json)                      // a successful reply whose body parses
    | Unparsable                            // a successful reply whose body does not parse
    | HttpError(status: int, body: string)  // urllib.error.HTTPError
    | Unreachable(reason: string)           // any other failure of urlopen

  /** The value geturl_json returns for a reply: the decoded body, `{}` for
      an HTTP error (which is only logged), and the exception otherwise. */
  function Dispatch(reply: Reply): (r: Result<Json, Error>)
    ensures reply.HttpError? ==> r == Ok(EmptyObject)
    ensures r.Ok? <==> reply.Body? || reply.HttpError?
    ensures reply.Body? ==> r == Ok(reply.json)
    ensures reply.Unparsable? ==> r == Err(InvalidJson)
    ensures reply.Unreachable? ==> r == Err(NetworkFailure(reply.reason))
  {
    match reply
    case Body(j) => Ok(j)
    case Unparsable => Err(InvalidJson)
    case HttpError(_, _) => Ok(EmptyObject)
    case Unreachable(reason) => Err(NetworkFailure(reason))
  }

  /** Whether some header of the request has the value None. */
  predicate HasNoneHeader(req: Request)
  {
    exists i :: 0 <= i < |req.headers| && req.headers[i].value.None?
  }

  /** The message of the TypeError http.client raises for a header whose
      value is None; its exact text depends on the Python version. */
  const NoneHeaderMessage: string := "expected string or bytes-like object"

  /** What urlopen, json.loads and the `except HTTPError` clause make of a
      request: a header whose value is None makes http.client raise a
      TypeError before anything is sent, so the network is never asked;
      otherwise the reply is dispatched. */
  function Open(req: Request, network: Request -> Reply): (r: Result<Json, Error>)
    ensures HasNoneHeader(req) ==> r == Err(TypeError(NoneHeaderMessage))
    ensures r.Ok? <==> !HasNoneHeader(req) && (network(req).Body? || network(req).HttpError?)
    ensures !HasNoneHeader(req) ==> r == Dispatch(network(req))
  {
    if HasNoneHeader(req) then Err(TypeError(NoneHeaderMessage)) else Dispatch(network(req))
  }

  /** The member of an object stored under `k`; json.loads keeps the last
      of repeated members. */
  function Member(members: seq<(string, Json)>, k: string): (r: Option<Json>)
    ensures r.Some? <==> exists i :: 0 <= i < |members| && members[i].0 == k
    ensures r.Some? ==> exists i :: 0 <= i < |members| && members[i] == (k, r.value)
  {
    if members == [] then None
    else if members[|members| - 1].0 == k then Some(members[|members| - 1].1)
    else Member(members[..|members| - 1], k)
  }

  /** Python's `value[k]` for a decoded JSON value and a string key. */
  function Subscript(j: Json, k: string): (r: Result<Json, Error>)
    ensures r.Ok? <==> j.JObj? && Member(j.members, k).Some?
    ensures r.Ok? ==> r.value == Member(j.members, k).value
  {
    match j
    case JObj(ms) =>
      (match Member(ms, k)
       case Some(v) => Ok(v)
       case None => Err(KeyError(k)))
    case _ => Err(TypeError("subscript of a value that is not a dict"))
  }

  /** The elements `for x in value` visits: a list's elements, a dict's
      keys, a string's characters; other values are not iterable. */
  function Iterate(j: Json): (r: Result<seq<Json>, Error>)
    ensures r.Err? <==> !(j.JArr? || j.JObj? || j.JStr?)
    ensures r.Err? ==> r.error.TypeError?
    ensures j.JArr? ==> r == Ok(j.elems)
    ensures r.Ok? ==> (|r.value| == 0 <==> j == JArr([]) || j == EmptyObject || j == JStr(""))
  {
    match j
    case JArr(xs) => Ok(xs)
    case JObj(ms) => Ok(MemberNames(ms))
    case JStr(s) => Ok(Characters(s))
    case _ => Err(TypeError("value is not iterable"))
  }

  /** The member names of an object, each as a JSON string. (json.loads
      collapses repeated names; only whether there are any matters here.) */
  function MemberNames(ms: seq<(string, Json)>): (r: seq<Json>)
    ensures |r| == |ms|
  {
    if ms == [] then [] else [JStr(ms[0].0)] + MemberNames(ms[1..])
  }

  /** The characters of a string, each as a one-character JSON string. */
  function Characters(s: string): (r: seq<Json>)
    ensures |r| == |s|
  {
    if s == [] then [] else [JStr([s[0]])] + Characters(s[1..])
  }
}
