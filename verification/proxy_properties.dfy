/** Properties of the proxy that relate several calls of the handler. */
module ProxyProperties {
  import opened Base
  import opened EdgeCache
  import opened MetProxy

  /** A document stored by a MISS survives the trim that may follow it, as
      long as the cache was within its bound and no entry was stamped later
      than the store (a clock that does not run backwards). */
  lemma StoredEntrySurvives(c: Cache, key: string, e: Entry)
    requires Valid(c)
    requires |c.entries| <= MaxEntries
    requires forall k | k in c.entries :: c.entries[k].timestamp <= e.timestamp
    ensures key in StoreAndTrim(c, key, e).entries
    ensures StoreAndTrim(c, key, e).entries[key] == e
  {
    var stored := Put(c, key, e);
    if |stored.entries| > MaxEntries {
      SizeIsOrderLength(c);
      forall i | 0 <= i < |stored.order|
        ensures StampAt(stored, i) <= StampAt(stored, |stored.order| - 1)
      {
        if i < |c.order| {
          assert stored.order[i] == c.order[i];
        }
      }
      NewestLastSurvives(stored, EvictCount);
    }
  }

  /** After a MISS, asking again for the same coordinates less than three
      hours later is a HIT with the same document, without calling upstream.
      (api/met.js:37-49 and 116-140) */
  lemma MissThenHit(c: Cache, req: Request, now: int, upstream: Upstream,
                    again: Request, later: int, upstream2: Upstream)
    requires Valid(c)
    requires |c.entries| <= MaxEntries
    requires forall k | k in c.entries :: c.entries[k].timestamp <= now
    requires Handle(c, req, now, upstream).response.xCache == Some(Miss)
    requires again.verb != "OPTIONS" && again.lat == req.lat && again.lon == req.lon
    requires later - now < CacheDuration
    ensures var after := Handle(c, req, now, upstream).cache;
      Handle(after, again, later, upstream2) ==
        Outcome(Response(200, Xml(upstream.body), Some(Hit)), after, None)
  {
    var key := RequestKey(req);
    var e := Entry(now, upstream.body);
    var after := Handle(c, req, now, upstream).cache;
    assert Admitted(req) && Delivered(upstream);
    assert after == StoreAndTrim(c, key, e);
    StoredEntrySurvives(c, key, e);
    assert RequestKey(again) == key;
    assert FreshIn(after, key, later);
  }

  /** A sequence of calls, each with its own time and upstream behaviour. */
  datatype Call = Call(req: Request, now: int, upstream: Upstream)

  /** The cache after running `calls` one after another. */
  function Replay(c: Cache, calls: seq<Call>): (c': Cache)
    requires Valid(c)
    ensures Valid(c')
    decreases |calls|
  {
    if |calls| == 0 then c
    else Replay(Handle(c, calls[0].req, calls[0].now, calls[0].upstream).cache, calls[1..])
  }

  /** The cache never holds more than 200 entries, whatever the calls.
      (api/met.js:123-130) */
  lemma {:induction false} ReplayStaysBounded(c: Cache, calls: seq<Call>)
    requires Valid(c)
    requires |c.entries| <= MaxEntries
    ensures |Replay(c, calls).entries| <= MaxEntries
    decreases |calls|
  {
    if |calls| > 0 {
      ReplayStaysBounded(Handle(c, calls[0].req, calls[0].now, calls[0].upstream).cache, calls[1..]);
    }
  }

  /** Two requests share a cache entry exactly when they name the same
      coordinates, provided the latitude text holds no underscore (a decimal
      numeral never does). (api/met.js:32) */
  lemma CacheKeyInjective(lat1: string, lon1: string, lat2: string, lon2: string)
    requires '_' !in lat1 && '_' !in lat2
    ensures CacheKey(lat1, lon1) == CacheKey(lat2, lon2) <==> lat1 == lat2 && lon1 == lon2
  {
    if CacheKey(lat1, lon1) == CacheKey(lat2, lon2) {
      JoinInjective(lat1, lon1, lat2, lon2, '_');
    }
  }

  /** The key is raw text, so a latitude that contains an underscore can
      collide with a different request. */
  lemma CacheKeyCollision()
    ensures CacheKey("1_2", "3") == CacheKey("1", "2_3")
  {
  }

  /** A request for Dublin on a cold instance: a MISS that stores the
      document, a HIT one second later, a STALE copy once three hours have
      passed and upstream is down, and a 503 when nothing was ever cached. */
  lemma DublinScenario(t0: int, doc: string, msg: string)
    requires LooksLikeXml(doc)
    ensures var req := Request("GET", Some("53.35"), Some("-6.26"));
      var first := Handle(Empty, req, t0, Status(200, doc));
      var second := Handle(first.cache, req, t0 + 1000, Thrown(msg));
      var third := Handle(second.cache, req, t0 + CacheDuration + 1000, Thrown(msg));
      var cold := Handle(Empty, req, t0, Thrown(msg));
      && first.response == Response(200, Xml(doc), Some(Miss))
      && second.response == Response(200, Xml(doc), Some(Hit))
      && third.response == Response(200, Xml(doc), Some(Stale))
      && cold.response == Response(503, Json(UpstreamUnreachable(Threw(msg))), None)
  {
    var req := Request("GET", Some("53.35"), Some("-6.26"));
    assert Valid(Empty);
    MissThenHit(Empty, req, t0, Status(200, doc), req, t0 + 1000, Thrown(msg));
  }
}
