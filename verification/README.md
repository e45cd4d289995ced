# isitsunny — a Dafny model of the forecast proxy and the sunshine finder

The application answers "where in Ireland is it sunny on day D, nearest
first". Two pieces of it hold real logic, and this project models both as
pure Dafny functions and proves what they promise.

- **The edge caching proxy** (`api/met.js`). It sits in front of Met
  Éireann's location forecast service. It answers CORS preflights and
  rejects requests without `lat`/`lon`. It serves cached documents younger
  than three hours as `X-Cache: HIT`. Otherwise it calls upstream. A good XML
  body is stored and served as `MISS`. On upstream failure, any cached copy
  is served as `STALE`, however old. The cache is a `Map` kept to at most 200
  entries: once it grows past that, the 50 oldest are deleted. "Oldest" comes
  from a stable sort by timestamp, so ties go by insertion order. One call is
  the pure transition `MetProxy.Handle(cache, request, now, upstream)`. It
  returns the response, the new cache and the upstream query made, if any.
- **The forecast aggregation** (`old/src/App.jsx`). The parser files every
  `<time>` sample under the date before the `T` of its `from` attribute. A
  day is sunny iff at least half of its symbol codes are 3 or below. A sample
  with no symbol reads as 4. A `NaN` code is never sunny. Parsed forecasts go
  into `localStorage` for three hours, with no stale fallback.
  `fetchWeatherForLocation` turns every failure into `null`.
  `checkSunnyLocations` keeps the registry locations that are sunny on the
  chosen date and sorts them stably by rounded distance.

Modules: `Base` (option type, `includes`, `split`, duplicate-free
sequences), `Sorting` (stable sort as a sort on (key, original position)),
`EdgeCache` (the `Map` with insertion order, and eviction), `MetProxy` (the
handler), `ProxyProperties` (facts about several calls), `ForecastParser`,
`ForecastStore` (the `localStorage` cache) and `SunnyFinder`.

Modelling choices:

- **Inputs in place of I/O.** The clock, the upstream outcome
  (`Status(code, body)` or `Thrown(message)`), the browser's fetch result and
  the rounded distance function are all parameters.
- **Stable sort.** A stable sort by key is modelled as a strict sort on the
  pair (key, original position). The two orders are the same, and
  `Sorting.SortedPermutationUnique` shows this order has only one outcome.
- **Ranked results.** `checkSunnyLocations` returns the location and its
  distance. The model also records each location's registry index (`pos`),
  so that the tie-break can be stated.
- **Echoing an upstream error status.** A non-OK upstream status is echoed
  with `new Response(json, {status})`. By the Fetch standard, that
  constructor throws for a status outside 200–599 and for 304, which may not
  carry a body. The throw happens inside the `try`. The `catch` then finds no
  cached entry (this path is only taken without one) and answers 503.
  `MetProxy.FailureResponse` models this.
- **Browser-side exceptions.** `from.split` throws on a `<time>` without
  `from`. `localStorage.setItem` throws when the quota is exceeded. Both land
  in the `catch` of `fetchWeatherForLocation` and give `null`, and both are
  modelled.

Behaviour of the code worth noting:

- **Invalid upstream body.** An OK upstream body without `<?xml` or
  `<weatherdata` is answered with 500, even when a cached copy exists. No
  stale fallback happens here.
- **Cache key.** The key is the raw `lat_lon` text, with no rounding.
- **Document without samples.** The parser returns an empty forecast, not
  an error.
- **Preflight.** The answer has the default status 200.
- **Single upstream endpoint.** There is one endpoint and no fallback to
  another.

## Model

| member | source | states |
|---|---|---|
| Base.Contains | api/met.js:99 | `s.includes(pat)` holds iff `pat` occurs in `s` at some offset |
| Base.BeforeFirst | old/src/App.jsx:127 | `split('T')[0]` is a prefix of the text with no `T` in it, followed by a `T` unless it is the whole text |
| Sorting.Sort | api/met.js:125 | the result is a permutation of the input, ordered by key with ties in original order (strictly increasing in (key, position)) |
| Sorting.SortedPermutationUnique | old/src/App.jsx:192 | two arrangements of the same elements that are both ordered by (key, position) are equal, so the stable order is fully determined |
| EdgeCache.SizeIsOrderLength | api/met.js:123 | `cache.size` equals the number of keys in insertion order when every key is listed once |
| EdgeCache.Get | api/met.js:37 | `cache.get(key)` finds an entry iff the key is present, and returns the stored entry |
| EdgeCache.Put | api/met.js:117-120 | `cache.set` keeps the key list duplicate-free, stores the entry, grows the size only for a new key, leaves every existing key in its place and appends a new key last |
| EdgeCache.EvictOldest | api/met.js:122-130 | exactly `n` entries are deleted, the rest are unchanged and keep their relative order, and every deleted entry is older than every kept one, or as old and inserted earlier |
| EdgeCache.NewestLastSurvives | api/met.js:122-130 | the key inserted last survives a trim when no entry is newer than it and something is left |
| MetProxy.Handle | api/met.js:8-173 | OPTIONS gives a body-less preflight with no cache or upstream use. Blank `lat`/`lon` gives 400 `Missing lat or lon` with no cache or upstream use. HIT iff the key `lat_lon` has an entry with `now - timestamp < 10800000`; it serves that entry without an upstream call. Any other admitted request calls upstream once with the raw lat/lon. On upstream failure, STALE iff any entry exists, serving it unchanged. Without an entry the failure answer is the echoed status or 503. An OK non-XML body gives 500 and no stale copy. MISS iff upstream is OK with XML, serving the body. Only a MISS changes the cache. After a MISS the key holds `(now, body)` unless the trim deleted it. Nothing is deleted while the map holds at most 200 entries after the set; past that exactly 50 are, each older than every kept entry or as old and inserted earlier, and the kept keys keep their insertion order. A cache of at most 200 entries stays at most 200 |
| MetProxy.StoreAndTrim | api/met.js:116-130 | after `cache.set` and the clean-up, the key holds the new entry unless deleted, every other entry is unchanged, and nothing is deleted while the map holds at most 200 entries. Otherwise exactly 50 are deleted, each evicted before every key that stays, and the kept keys keep their insertion order |
| ProxyProperties.StoredEntrySurvives | api/met.js:116-130 | a document stored in a cache within its bound survives the following trim when no entry is newer |
| ProxyProperties.MissThenHit | api/met.js:37-49 | after a MISS, the same coordinates asked less than three hours later give a HIT with the same body, no upstream call and no cache change |
| ProxyProperties.ReplayStaysBounded | api/met.js:122-130 | over any sequence of calls, a cache that starts with at most 200 entries never holds more than 200 |
| ProxyProperties.CacheKeyInjective | api/met.js:32 | two requests share a cache entry iff their lat and lon texts are equal, when the latitudes hold no underscore |
| ProxyProperties.CacheKeyCollision | api/met.js:32 | the raw key lets latitude `1_2`/longitude `3` and latitude `1`/longitude `2_3` share an entry |
| ProxyProperties.DublinScenario | api/met.js:37-171 | cold MISS, a HIT 1 s later, STALE after the TTL with upstream down, and 503 on a cold cache with upstream down |
| ForecastParser.GroupIsCodesOn | old/src/App.jsx:125-136 | a date has a group iff some sample falls on it, and its group is exactly the codes of the samples on that date, in document order |
| ForecastParser.Parse | old/src/App.jsx:119-147 | the parse fails iff some sample lacks `from`. Otherwise its dates are exactly those of the samples, and a date is sunny iff at least half of all its samples' codes are sunny |
| ForecastParser.NotSunnySampleDilutes | old/src/App.jsx:129-135 | a sample with no symbol (read as 4), a `NaN` code or a code above 3 adds one to its day's count and nothing to its sunny count |
| ForecastParser.SymbolExamples | old/src/App.jsx:142 | codes 1, 3, 0 and -2 are sunny; 4, 10, a missing symbol and `NaN` are not |
| ForecastParser.ThresholdExamples | old/src/App.jsx:139-144 | codes [1,10] make a sunny day and [10,10,1] do not, and likewise with missing and `NaN` codes |
| ForecastParser.SingleDate | old/src/App.jsx:125-146 | samples all on one date give a forecast with just that date, decided by all their codes |
| ForecastStore.GetCached | old/src/App.jsx:64-77 | returns the stored forecast iff one exists under `weather_lat_lon` with `now - timestamp < 10800000`, and nothing otherwise |
| ForecastStore.CacheForecast | old/src/App.jsx:79-85 | stores `(now, forecast)` under the location's key and changes no other key |
| ForecastStore.CacheThenGet | old/src/App.jsx:64-85 | a saved forecast is read back for any location with the same coordinates less than three hours later, and never from three hours on |
| ForecastStore.StorageKeyInjective | old/src/App.jsx:65 | two locations share a storage key iff their coordinates are equal, when the latitudes hold no underscore |
| SunnyFinder.FetchWeather | old/src/App.jsx:87-117 | a fresh cached forecast is returned without a request. After a request, a forecast comes back iff the reply is OK, parses and is saved, and it is then the parse, saved at the store time. Any failure returns null and writes nothing |
| SunnyFinder.FetchThenRecall | old/src/App.jsx:87-117 | after a successful fetch, the same location within three hours of the save is answered from the cache without a request |
| SunnyFinder.CollectStep | old/src/App.jsx:180-188 | considering one more location appends it, with its distance, exactly when its forecast is sunny on the date, keeping registry order |
| SunnyFinder.RankCollected | old/src/App.jsx:191-192 | sorting the collected locations keeps exactly the same locations, distances and registry indices |
| SunnyFinder.CheckSunnyLocations | old/src/App.jsx:162-195 | returns exactly the registry locations whose forecast is present and sunny on the date, each with its distance, in ascending distance with ties in registry order. The storage is threaded through the locations in order, and one location's failure excludes only that location |

## Left out

- The React component, its state hooks, the warnings fetch, geolocation, `getNextSevenDays`/`formatDate` and rendering (old/src/App.jsx:19-62, 197-350): presentation and browser I/O.
- The haversine distance (old/src/App.jsx:149-160): floating-point trigonometry. The rounded distance is the parameter `dist: Location -> nat`.
- XML parsing with `DOMParser`/`querySelectorAll`, and the string semantics of `parseInt`: a document is given as its list of already extracted samples.
- The 100 ms `setTimeout` delay between uncached fetches and the cache probe that decides it (old/src/App.jsx:175-178): it only affects timing.
- `fetch`, the 15 s `AbortSignal.timeout`, `console` logging, `Date.now()` and `toISOString()`: the outcome, the clock readings and the date string are parameters.
- Response headers other than the status and `X-Cache` (`Content-Type`, CORS, `Cache-Control`), and the exact wording of the JSON error messages. Error bodies are told apart by kind.
- A malformed `req.url` making `new URL` throw before the `try`: the runtime's own error page is outside the handler.
- Corrupt `localStorage` contents making `JSON.parse` throw: storage is typed, and only `cacheForecast` writes it.
- The early return of `checkSunnyLocations` when no date or user location is selected, and its loading flags: UI state.
- Dates that collide with `Object.prototype` properties such as `__proto__`: a forecast date is plain text here.
- Concurrent requests sharing the edge cache: every call is atomic and sequential.
- src/main.jsx: React bootstrapping only.
- ProxyProperties.CacheKeyInjective: it requires latitudes without an underscore, because the raw key can collide otherwise (see ProxyProperties.CacheKeyCollision).
- ProxyProperties.MissThenHit: it requires the cache to be within its bound and no entry to be stamped after the store. If the clock runs backwards, a new entry can be among the 50 oldest and be deleted at once.
- ForecastStore.StorageKeyInjective: it requires latitudes without an underscore. Coordinates are modelled as the text JavaScript prints for a number, which never holds one.
