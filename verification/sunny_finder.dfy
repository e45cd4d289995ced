/** `fetchWeatherForLocation` and `checkSunnyLocations` of old/src/App.jsx:
    fetch (or recall) each registry location's forecast, keep the locations
    whose verdict for the chosen date is sunny, and rank them by distance.

    Everything the browser supplies is a parameter: the clock readings, what
    each `fetch` returned, whether `localStorage` accepted the write, and the
    rounded distance of each location from the user. */
module SunnyFinder {
  import opened Base
  import opened Sorting
  import opened ForecastParser
  import opened ForecastStore

  /** What the forecast `fetch` produced: a response whose body parses to
      the given samples, or an exception (network failure, or a failure
      reading the body). */
  datatype Reply = Reply(status: int, samples: seq<Sample>) | NetworkError(message: string)

  /** One location's view of the outside world: the clock when the cache is
      checked, the fetch result, the clock when the result is saved, and
      whether `localStorage.setItem` succeeds (it throws when the quota is
      exceeded). */
  datatype Env = Env(checkedAt: int, reply: Reply, storedAt: int, storageAccepts: bool)

  /** The forecast returned (`None` for `null`), the storage afterwards, and
      whether a network request was made. */
  datatype Fetched = Fetched(forecast: Option<Forecast>, storage: Storage, requested: bool)

  /** `fetchWeatherForLocation`. */
  function FetchWeather(st: Storage, loc: Location, env: Env): (r: Fetched)
    // a fresh cached forecast is returned without fetching
    ensures !r.requested <==> GetCached(st, loc, env.checkedAt).Some?
    ensures !r.requested ==> r.forecast == GetCached(st, loc, env.checkedAt) && r.storage == st
    // a fetched forecast is returned only when every step succeeded
    ensures r.requested ==>
      (r.forecast.Some? <==>
         env.reply.Reply? && HttpOk(env.reply.status) && AllTimed(env.reply.samples) && env.storageAccepts)
    ensures r.requested && r.forecast.Some? ==>
      r.forecast == Parse(env.reply.samples) &&
      r.storage == CacheForecast(st, loc, r.forecast.value, env.storedAt)
    // any failure yields null and writes nothing
    ensures r.forecast.None? ==> r.storage == st
  {
    var cached := GetCached(st, loc, env.checkedAt);
    if cached.Some? then Fetched(cached, st, false)
    else
      match env.reply
      case NetworkError(_) => Fetched(None, st, true)
      case Reply(status, samples) =>
        if !HttpOk(status) then Fetched(None, st, true)  // throw new Error('API request failed')
        else
          match Parse(samples)
          case None => Fetched(None, st, true)            // from.split on a missing attribute
          case Some(f) =>
            if env.storageAccepts then Fetched(Some(f), CacheForecast(st, loc, f, env.storedAt), true)
            else Fetched(None, st, true)                   // setItem threw
  }

  /** A successful fetch is remembered: the same location asked again less
      than three hours after the save gets the same forecast without a
      request. */
  lemma FetchThenRecall(st: Storage, loc: Location, env: Env, env2: Env)
    requires FetchWeather(st, loc, env).requested && FetchWeather(st, loc, env).forecast.Some?
    requires env2.checkedAt - env.storedAt < Ttl
    ensures var first := FetchWeather(st, loc, env);
      FetchWeather(first.storage, loc, env2) == Fetched(first.forecast, first.storage, false)
  {
  }

  /** The forecast for `date` is truthy: present and sunny. */
  predicate SunnyOn(f: Option<Forecast>, date: string)
  {
    f.Some? && date in f.value && f.value[date]
  }

  /** The reference run of the loop at old/src/App.jsx:172-189: every
      location's forecast, in registry order, with the storage threaded from
      one location to the next. */
  function Survey(registry: seq<Location>, envs: seq<Env>, st: Storage): (r: (seq<Option<Forecast>>, Storage))
    requires |envs| == |registry|
    ensures |r.0| == |registry|
    decreases |registry|
  {
    if |registry| == 0 then ([], st)
    else
      var n := |registry| - 1;
      var before := Survey(registry[..n], envs[..n], st);
      var got := FetchWeather(before.1, registry[n], envs[n]);
      (before.0 + [got.forecast], got.storage)
  }

  /** The survey of one more location extends the survey of the ones
      before it by that location's fetch. */
  lemma SurveyStep(registry: seq<Location>, envs: seq<Env>, st0: Storage, i: nat)
    requires |envs| == |registry| && i < |registry|
    ensures var before := Survey(registry[..i], envs[..i], st0);
      var got := FetchWeather(before.1, registry[i], envs[i]);
      Survey(registry[..i + 1], envs[..i + 1], st0) == (before.0 + [got.forecast], got.storage)
  {
    assert registry[..i + 1][..i] == registry[..i];
    assert envs[..i + 1][..i] == envs[..i];
  }

  /** `sunny` holds, in registry order, the tagged locations among the first
      `n` whose forecast is sunny on `date`. */
  ghost predicate Collected(sunny: seq<Tagged<Location>>, registry: seq<Location>, forecasts: seq<Option<Forecast>>,
                            date: string, dist: Location -> nat, n: nat)
    requires n <= |registry| && n <= |forecasts|
  {
    && (forall k :: 0 <= k < |sunny| ==>
          sunny[k].pos < n && sunny[k].item == registry[sunny[k].pos] && sunny[k].key == dist(registry[sunny[k].pos]))
    && (forall k, l :: 0 <= k < l < |sunny| ==> sunny[k].pos < sunny[l].pos)
    && (forall j :: 0 <= j < n ==>
          (SunnyOn(forecasts[j], date) <==> exists k :: 0 <= k < |sunny| && sunny[k].pos == j))
  }

  /** One more location considered: it is appended exactly when sunny. */
  lemma CollectStep(sunny: seq<Tagged<Location>>, registry: seq<Location>, forecasts: seq<Option<Forecast>>,
                    date: string, dist: Location -> nat, n: nat, f: Option<Forecast>)
    requires n < |registry| && n == |forecasts|
    requires Collected(sunny, registry, forecasts, date, dist, n)
    ensures var sunny' := if SunnyOn(f, date) then sunny + [Tagged(dist(registry[n]), n, registry[n])] else sunny;
      Collected(sunny', registry, forecasts + [f], date, dist, n + 1)
  {
    var sunny' := if SunnyOn(f, date) then sunny + [Tagged(dist(registry[n]), n, registry[n])] else sunny;
    var forecasts' := forecasts + [f];
    forall j | 0 <= j <= n
      ensures SunnyOn(forecasts'[j], date) <==> exists k :: 0 <= k < |sunny'| && sunny'[k].pos == j
    {
      assert forall k :: 0 <= k < |sunny| ==> sunny'[k] == sunny[k];
      if j < n {
        assert forecasts'[j] == forecasts[j];
        assert forall k :: |sunny| <= k < |sunny'| ==> sunny'[k].pos == n;
        if SunnyOn(forecasts[j], date) {
          var k :| 0 <= k < |sunny| && sunny[k].pos == j;
          assert sunny'[k].pos == j;
        }
      } else if SunnyOn(f, date) {
        assert sunny'[|sunny|].pos == n;
      } else {
        assert forall k :: 0 <= k < |sunny| ==> sunny[k].pos < n;
      }
    }
  }

  /** Sorting the collected locations keeps exactly the same ones. */
  lemma RankCollected(sunny: seq<Tagged<Location>>, ranked: seq<Tagged<Location>>, registry: seq<Location>,
                      forecasts: seq<Option<Forecast>>, date: string, dist: Location -> nat)
    requires |forecasts| == |registry|
    requires Collected(sunny, registry, forecasts, date, dist, |registry|)
    requires multiset(ranked) == multiset(sunny)
    ensures forall k :: 0 <= k < |ranked| ==>
      ranked[k].pos < |registry| && ranked[k].item == registry[ranked[k].pos] &&
      ranked[k].key == dist(registry[ranked[k].pos])
    ensures forall i :: 0 <= i < |registry| ==>
      (SunnyOn(forecasts[i], date) <==> exists k :: 0 <= k < |ranked| && ranked[k].pos == i)
  {
    forall k | 0 <= k < |ranked|
      ensures ranked[k] in sunny
    {
      assert ranked[k] in multiset(ranked);
    }
    forall k | 0 <= k < |sunny|
      ensures sunny[k] in ranked
    {
      assert sunny[k] in multiset(sunny);
    }
    forall i | 0 <= i < |registry| && SunnyOn(forecasts[i], date)
      ensures exists k :: 0 <= k < |ranked| && ranked[k].pos == i
    {
      var k :| 0 <= k < |sunny| && sunny[k].pos == i;
      assert sunny[k] in ranked;
    }
  }

  /** `checkSunnyLocations`. Each result is a registry location tagged with
      its rounded distance (`key`) and its registry index (`pos`). */
  method CheckSunnyLocations(registry: seq<Location>, date: string, dist: Location -> nat,
                             st0: Storage, envs: seq<Env>)
    returns (ranked: seq<Tagged<Location>>, st: Storage)
    requires |envs| == |registry|
    ensures st == Survey(registry, envs, st0).1
    // ascending distance, ties in registry order
    ensures StrictlySorted(ranked)
    ensures forall k :: 0 <= k < |ranked| ==>
      ranked[k].pos < |registry| &&
      ranked[k].item == registry[ranked[k].pos] &&
      ranked[k].key == dist(registry[ranked[k].pos])
    // exactly the locations whose forecast says sunny on `date`
    ensures forall i :: 0 <= i < |registry| ==>
      (SunnyOn(Survey(registry, envs, st0).0[i], date) <==> exists k :: 0 <= k < |ranked| && ranked[k].pos == i)
  {
    var sunny: seq<Tagged<Location>> := [];
    ghost var forecasts: seq<Option<Forecast>> := [];
    st := st0;
    var i := 0;
    while i < |registry|
      invariant 0 <= i <= |registry|
      invariant (forecasts, st) == Survey(registry[..i], envs[..i], st0)
      invariant Collected(sunny, registry, forecasts, date, dist, i)
    {
      SurveyStep(registry, envs, st0, i);
      var got := FetchWeather(st, registry[i], envs[i]);
      CollectStep(sunny, registry, forecasts, date, dist, i, got.forecast);
      if SunnyOn(got.forecast, date) {
        sunny := sunny + [Tagged(dist(registry[i]), i, registry[i])];
      }
      forecasts := forecasts + [got.forecast];
      st := got.storage;
      i := i + 1;
    }
    assert registry[..i] == registry && envs[..i] == envs;
    ranked := Sort(sunny);
    RankCollected(sunny, ranked, registry, forecasts, date, dist);
  }
}
