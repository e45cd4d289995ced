/** The edge function `handler` of api/met.js: a caching proxy in front of
    Met Éireann's location forecast service.

    One call is modelled as a pure transition from the cache before the call
    to a response and the cache after it. The current time, the request and
    what the upstream `fetch` produced are parameters; each call runs to
    completion before the next begins. */
module MetProxy {
  import opened Base
  import opened EdgeCache

  /** `CACHE_DURATION`: three hours in milliseconds. */
  const CacheDuration: int := 3 * 60 * 60 * 1000

  /** The cache is trimmed once it holds more than this many entries ... */
  const MaxEntries: nat := 200

  /** ... by deleting this many of the oldest. */
  const EvictCount: nat := 50

  /** The incoming request: its method and the `lat`/`lon` query parameters
      (`None` when absent from the query string). */
  datatype Request = Request(verb: string, lat: Option<string>, lon: Option<string>)

  /** What the upstream `fetch` did: answered with a status and a body, or
      threw (network error, the 15 s abort timeout, or a failure reading the
      body). */
  datatype Upstream = Status(code: int, body: string) | Thrown(message: string)

  /** The coordinates sent upstream. */
  datatype Query = Query(lat: string, lon: string)

  /** The `X-Cache` diagnostic header. */
  datatype CacheTag = Hit | Miss | Stale

  /** Why a JSON error body's `details` field was filled in the catch block. */
  datatype Cause =
    | Threw(message: string)
      /** `new Response(body, {status})` itself threw: the status is outside
          200-599 or is a status that may not carry a body. */
    | StatusRejected(status: int)

  /** The JSON error bodies the handler produces. */
  datatype ErrorBody =
    | MissingLatLon                   // { error: 'Missing lat or lon' }
    | UpstreamHttpError(status: int)  // 'Failed to fetch …', details `HTTP ${status}`
    | InvalidUpstreamBody             // 'Invalid response from Met Éireann'
    | UpstreamUnreachable(cause: Cause) // 'Failed to fetch …', details err.message

  datatype Body = NoBody | Xml(text: string) | Json(error: ErrorBody)

  datatype Response = Response(status: int, body: Body, xCache: Option<CacheTag>)

  /** The result of one call: the response, the cache afterwards, and the
      upstream request made, if any. */
  datatype Outcome = Outcome(response: Response, cache: Cache, upstreamCall: Option<Query>)

  /** The CORS preflight answer: default status 200 and no body. */
  const Preflight := Response(200, NoBody, None)

  /** `!lat`: a parameter that is absent or empty. */
  predicate Blank(p: Option<string>)
  {
    p.None? || p.value == ""
  }

  /** A request that gets past the preflight and parameter checks. */
  predicate Admitted(req: Request)
  {
    req.verb != "OPTIONS" && !Blank(req.lat) && !Blank(req.lon)
  }

  /** The cache key `${lat}_${lon}`, built from the raw parameter text. */
  function CacheKey(lat: string, lon: string): string
  {
    lat + "_" + lon
  }

  function RequestKey(req: Request): string
    requires req.lat.Some? && req.lon.Some?
  {
    CacheKey(req.lat.value, req.lon.value)
  }

  /** `cached && (now - cached.timestamp) < CACHE_DURATION`. */
  predicate FreshIn(c: Cache, key: string, now: int)
  {
    key in c.entries && now - c.entries[key].timestamp < CacheDuration
  }

  /** The body passes the sanity check at api/met.js:99. */
  predicate LooksLikeXml(body: string)
  {
    Contains(body, "<?xml") || Contains(body, "<weatherdata")
  }

  /** `new Response(json, {status})` accepts `status`: it is in 200-599 and
      is not a null-body status (204, 205, 304). */
  predicate CanCarryBody(code: int)
  {
    200 <= code <= 599 && code != 204 && code != 205 && code != 304
  }

  /** The upstream call failed: it threw, or answered with a non-OK status. */
  predicate UpstreamFailed(u: Upstream)
  {
    u.Thrown? || !HttpOk(u.code)
  }

  /** The upstream answered OK with a body that looks like XML. */
  predicate Delivered(u: Upstream)
  {
    u.Status? && HttpOk(u.code) && LooksLikeXml(u.body)
  }

  /** The 200 answer carrying a cached document. */
  function Serve(e: Entry, tag: CacheTag): Response
  {
    Response(200, Xml(e.data), Some(tag))
  }

  /** The answer when upstream failed and there is nothing cached. */
  function FailureResponse(u: Upstream): Response
  {
    match u
    case Thrown(msg) => Response(503, Json(UpstreamUnreachable(Threw(msg))), None)
    case Status(code, _) =>
      if CanCarryBody(code) then Response(code, Json(UpstreamHttpError(code)), None)
      // The constructor throws inside the try; the catch finds no cached
      // entry either and answers 503.
      else Response(503, Json(UpstreamUnreachable(StatusRejected(code))), None)
  }

  /** `cache.set(key, …)` followed by the clean-up at api/met.js:123-130:
      the key holds the new entry unless the clean-up deleted it, nothing is
      deleted while the map holds at most 200 entries, and otherwise exactly
      50 are, each evicted before every key that stays, and the kept keys
      keep their insertion order. */
  function StoreAndTrim(c: Cache, key: string, e: Entry): (c': Cache)
    requires Valid(c)
    ensures Valid(c')
    ensures key in c'.entries ==> c'.entries[key] == e
    ensures forall k :: k in c'.entries ==>
      (k in c.entries && c'.entries[k] == c.entries[k]) || (k == key && c'.entries[k] == e)
    ensures var s := Put(c, key, e);
      && (|s.entries| <= MaxEntries ==> c' == s)
      && (|s.entries| > MaxEntries ==> |c'.entries| == |s.entries| - EvictCount)
      && (|s.entries| > MaxEntries ==> c'.order == Filter(s.order, c'.entries.Keys))
      && (forall k :: k in c'.entries ==> k in s.entries)
      && OldestRemoved(s, c')
  {
    var stored := Put(c, key, e);
    if |stored.entries| > MaxEntries then EvictOldest(stored, EvictCount) else stored
  }

  /** One call of the handler. */
  function Handle(c: Cache, req: Request, now: int, upstream: Upstream): (o: Outcome)
    requires Valid(c)
    ensures Valid(o.cache)
    // preflight and parameter checks touch neither the cache nor upstream
    ensures req.verb == "OPTIONS" ==> o == Outcome(Preflight, c, None)
    ensures req.verb != "OPTIONS" && (Blank(req.lat) || Blank(req.lon)) ==>
      o == Outcome(Response(400, Json(MissingLatLon), None), c, None)
    // a fresh entry is served without calling upstream
    ensures o.response.xCache == Some(Hit) <==> Admitted(req) && FreshIn(c, RequestKey(req), now)
    ensures o.response.xCache == Some(Hit) ==>
      o == Outcome(Serve(c.entries[RequestKey(req)], Hit), c, None)
    // everything else that gets past the checks goes upstream
    ensures o.upstreamCall.Some? <==> Admitted(req) && !FreshIn(c, RequestKey(req), now)
    ensures o.upstreamCall.Some? ==> o.upstreamCall == Some(Query(req.lat.value, req.lon.value))
    // failed upstream: any entry, however old, is served stale
    ensures o.response.xCache == Some(Stale) <==>
      o.upstreamCall.Some? && RequestKey(req) in c.entries && UpstreamFailed(upstream)
    ensures o.response.xCache == Some(Stale) ==>
      o.response == Serve(c.entries[RequestKey(req)], Stale) && o.cache == c
    ensures o.upstreamCall.Some? && RequestKey(req) !in c.entries && UpstreamFailed(upstream) ==>
      o.response == FailureResponse(upstream) && o.cache == c
    // an OK body that does not look like XML is a 500 even if an entry exists
    ensures o.upstreamCall.Some? && upstream.Status? && HttpOk(upstream.code) && !LooksLikeXml(upstream.body) ==>
      o.response == Response(500, Json(InvalidUpstreamBody), None) && o.cache == c
    // a good body is stored and served as a miss; nothing else changes the cache
    ensures o.response.xCache == Some(Miss) <==> o.upstreamCall.Some? && Delivered(upstream)
    ensures o.response.xCache == Some(Miss) ==>
      o.response == Response(200, Xml(upstream.body), Some(Miss))
    ensures o.response.xCache != Some(Miss) ==> o.cache == c
    ensures forall k :: k in o.cache.entries ==>
      (k in c.entries && o.cache.entries[k] == c.entries[k]) ||
      (o.response.xCache == Some(Miss) && k == RequestKey(req) && o.cache.entries[k] == Entry(now, upstream.body))
    // a MISS refreshes the key, and the trim deletes only the oldest
    ensures o.response.xCache == Some(Miss) && RequestKey(req) in o.cache.entries ==>
      o.cache.entries[RequestKey(req)] == Entry(now, upstream.body)
    ensures o.response.xCache == Some(Miss) ==>
      var s := Put(c, RequestKey(req), Entry(now, upstream.body));
      && (|s.entries| <= MaxEntries ==> o.cache == s)
      && (|s.entries| > MaxEntries ==> o.cache.order == Filter(s.order, o.cache.entries.Keys))
      && OldestRemoved(s, o.cache)
    ensures o.response.xCache == Some(Miss) ==>
      var grown := |c.entries| + (if RequestKey(req) in c.entries then 0 else 1);
      |o.cache.entries| == if grown > MaxEntries then grown - EvictCount else grown
    // the size bound is kept
    ensures |c.entries| <= MaxEntries ==> |o.cache.entries| <= MaxEntries
  {
    if req.verb == "OPTIONS" then
      Outcome(Preflight, c, None)
    else if Blank(req.lat) || Blank(req.lon) then
      Outcome(Response(400, Json(MissingLatLon), None), c, None)
    else
      var key := RequestKey(req);
      var cached := Get(c, key);
      if cached.Some? && now - cached.value.timestamp < CacheDuration then
        Outcome(Serve(cached.value, Hit), c, None)
      else
        var call := Some(Query(req.lat.value, req.lon.value));
        if UpstreamFailed(upstream) then
          if cached.Some? then Outcome(Serve(cached.value, Stale), c, call)
          else Outcome(FailureResponse(upstream), c, call)
        else if !LooksLikeXml(upstream.body) then
          Outcome(Response(500, Json(InvalidUpstreamBody), None), c, call)
        else
          Outcome(Response(200, Xml(upstream.body), Some(Miss)), StoreAndTrim(c, key, Entry(now, upstream.body)), call)
  }
}
