/** The browser-side forecast cache of old/src/App.jsx:64-85: parsed
    forecasts kept in `localStorage` under a key derived from a location's
    coordinates, trusted for three hours and never served once older. */
module ForecastStore {
  import opened Base
  import opened ForecastParser

  /** A registry location. `lat` and `lon` are the text JavaScript prints for
      the coordinates, which is what the storage key is built from. */
  datatype Location = Location(name: string, lat: string, lon: string)

  /** Three hours in milliseconds. */
  const Ttl: int := 10800000

  /** The JSON value stored: when the forecast was saved, and the forecast. */
  datatype Saved = Saved(timestamp: int, forecast: Forecast)

  /** The `weather_…` part of `localStorage`. */
  type Storage = map<string, Saved>

  /** `weather_${lat}_${lon}`. */
  function StorageKey(loc: Location): string
  {
    "weather_" + loc.lat + "_" + loc.lon
  }

  /** `getCachedForecast`: the stored forecast if it is younger than the TTL,
      otherwise nothing; an expired entry is never returned. */
  function GetCached(st: Storage, loc: Location, now: int): (r: Option<Forecast>)
    ensures r.Some? <==> StorageKey(loc) in st && now - st[StorageKey(loc)].timestamp < Ttl
    ensures r.Some? ==> r.value == st[StorageKey(loc)].forecast
  {
    var key := StorageKey(loc);
    if key in st && now - st[key].timestamp < Ttl then Some(st[key].forecast) else None
  }

  /** `cacheForecast`: saves the forecast stamped with `now` under the
      location's key and leaves every other key alone. */
  function CacheForecast(st: Storage, loc: Location, f: Forecast, now: int): (st': Storage)
    ensures StorageKey(loc) in st' && st'[StorageKey(loc)] == Saved(now, f)
    ensures forall k :: k != StorageKey(loc) ==> (k in st' <==> k in st)
    ensures forall k :: k != StorageKey(loc) && k in st ==> st'[k] == st[k]
  {
    st[StorageKey(loc):= Saved(now, f)]
  }

  /** Saving a forecast and reading it back less than three hours later, for
      the same coordinates under any name, returns that forecast; from three
      hours on it returns nothing. */
  lemma CacheThenGet(st: Storage, loc: Location, other: Location, f: Forecast, savedAt: int, now: int)
    requires other.lat == loc.lat && other.lon == loc.lon
    ensures now - savedAt < Ttl ==> GetCached(CacheForecast(st, loc, f, savedAt), other, now) == Some(f)
    ensures now - savedAt >= Ttl ==> GetCached(CacheForecast(st, loc, f, savedAt), other, now) == None
  {
  }

  /** Locations share a storage key exactly when their coordinates agree
      (the printed latitude of a number never holds an underscore). */
  lemma StorageKeyInjective(a: Location, b: Location)
    requires '_' !in a.lat && '_' !in b.lat
    ensures StorageKey(a) == StorageKey(b) <==> a.lat == b.lat && a.lon == b.lon
  {
    if StorageKey(a) == StorageKey(b) {
      var prefix := "weather_";
      var ka := a.lat + "_" + a.lon;
      var kb := b.lat + "_" + b.lon;
      assert StorageKey(a) == prefix + ka && StorageKey(b) == prefix + kb;
      assert ka == StorageKey(a)[|prefix|..];
      assert kb == StorageKey(b)[|prefix|..];
      JoinInjective(a.lat, a.lon, b.lat, b.lon, '_');
    }
  }
}
