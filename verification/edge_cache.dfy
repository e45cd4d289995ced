/** The proxy's module-level cache (api/met.js:6): a JavaScript `Map` from a
    cache key to a timestamped upstream document. A `Map` remembers the order
    in which keys were first inserted; re-setting a key keeps its place. That
    order matters because eviction sorts the entries stably, so it breaks
    ties between equal timestamps. */
module EdgeCache {
  import opened Base
  import opened Sorting

  /** One cached upstream document and the time (ms) it was stored. */
  datatype Entry = Entry(timestamp: int, data: string)

  /** The cache contents plus the keys in insertion order. */
  datatype Cache = Cache(entries: map<string, Entry>, order: seq<string>)

  /** The empty cache a fresh instance starts with. */
  const Empty := Cache(map[], [])

  /** The insertion order lists every key exactly once. */
  ghost predicate Valid(c: Cache)
  {
    && NoDuplicates(c.order)
    && forall k :: k in c.entries <==> k in c.order
  }

  /** `cache.size` is the length of the insertion order. */
  lemma SizeIsOrderLength(c: Cache)
    requires Valid(c)
    ensures |c.entries| == |c.order|
  {
    DistinctCardinality(c.order);
    assert c.entries.Keys == set k | k in c.order;
  }

  /** `cache.get(key)`. */
  function Get(c: Cache, key: string): (r: Option<Entry>)
    ensures r.Some? <==> key in c.entries
    ensures r.Some? ==> r.value == c.entries[key]
  {
    if key in c.entries then Some(c.entries[key]) else None
  }

  /** `cache.set(key, e)`: overwrites an existing entry in place, or appends
      a new key at the end of the insertion order. */
  function Put(c: Cache, key: string, e: Entry): (c': Cache)
    requires Valid(c)
    ensures Valid(c')
    ensures c'.entries == c.entries[key := e]
    ensures |c'.entries| == |c.entries| + (if key in c.entries then 0 else 1)
    ensures |c'.order| >= |c.order|
    ensures forall i :: 0 <= i < |c.order| ==> c'.order[i] == c.order[i]
    ensures key !in c.entries ==> |c'.order| == |c.order| + 1 && c'.order[|c.order|] == key
  {
    if key in c.entries then
      Cache(c.entries[key := e], c.order)
    else
      var c' := Cache(c.entries[key := e], c.order + [key]);
      SizeIsOrderLength(c);
      SizeIsOrderLength(c');
      c'
  }

  /** The timestamp of the `i`-th key in insertion order. */
  function StampAt(c: Cache, i: nat): int
    requires Valid(c) && i < |c.order|
  {
    c.entries[c.order[i]].timestamp
  }

  /** The `i`-th inserted key is evicted before the `j`-th one: it is older,
      or as old and inserted earlier. */
  predicate EvictedBefore(c: Cache, i: nat, j: nat)
    requires Valid(c) && i < |c.order| && j < |c.order|
  {
    StampAt(c, i) < StampAt(c, j) || (StampAt(c, i) == StampAt(c, j) && i < j)
  }

  /** Every key of `c` that `after` no longer holds is evicted before every
      key of `c` that it still holds. */
  ghost predicate OldestRemoved(c: Cache, after: Cache)
    requires Valid(c)
  {
    forall i, j ::
      (0 <= i < |c.order| && 0 <= j < |c.order| &&
       c.order[i] !in after.entries && c.order[j] in after.entries)
      ==> EvictedBefore(c, i, j)
  }

  /** `Array.from(cache.entries())` tagged for the stable sort by timestamp. */
  function AgeTags(c: Cache): (t: seq<Tagged<string>>)
    requires Valid(c)
    ensures |t| == |c.order|
    ensures forall i :: 0 <= i < |t| ==> t[i] == Tagged(StampAt(c, i), i, c.order[i])
  {
    seq(|c.order|, i requires 0 <= i < |c.order| => Tagged(StampAt(c, i), i, c.order[i]))
  }

  /** The keys of `s` that are in `keep`, in their order in `s`. */
  function Filter(s: seq<string>, keep: set<string>): (r: seq<string>)
    ensures forall k :: k in r <==> k in s && k in keep
    ensures NoDuplicates(s) ==> NoDuplicates(r)
  {
    if |s| == 0 then []
    else
      var rest := Filter(s[1..], keep);
      assert forall k :: k in s[1..] ==> k in s;
      assert NoDuplicates(s) ==> s[0] !in s[1..];
      if s[0] in keep then [s[0]] + rest else rest
  }

  /** Facts about the sorted tags: each is the tag of the key at its own
      position, and the first `n` name `n` distinct keys. */
  lemma SortedTagFacts(c: Cache, sorted: seq<Tagged<string>>, n: nat)
    requires Valid(c)
    requires n <= |sorted|
    requires StrictlySorted(sorted) && multiset(sorted) == multiset(AgeTags(c))
    ensures forall t | t in sorted :: t.pos < |c.order| && t == AgeTags(c)[t.pos]
    ensures NoDuplicates(Items(sorted[..n]))
  {
    var tags := AgeTags(c);
    forall t | t in sorted
      ensures t.pos < |c.order| && t == tags[t.pos]
    {
      assert t in multiset(sorted);
      assert t in multiset(tags);
      var p :| 0 <= p < |tags| && tags[p] == t;
    }
    var items := Items(sorted[..n]);
    forall i, j | 0 <= i < j < |items|
      ensures items[i] != items[j]
    {
      assert sorted[i] in sorted && sorted[j] in sorted;
      assert Precedes(sorted[i], sorted[j]);
      assert sorted[i].pos != sorted[j].pos;
    }
  }

  /** The keys named by the first `n` sorted tags. */
  function Doomed(sorted: seq<Tagged<string>>, n: nat): (d: set<string>)
    requires n <= |sorted|
    ensures forall m :: 0 <= m < n ==> sorted[m].item in d
    ensures forall k :: k in d ==> exists m :: 0 <= m < n && sorted[m].item == k
  {
    set k | k in Items(sorted[..n])
  }

  /** The first `n` sorted tags name keys of the cache. */
  lemma DoomedInCache(c: Cache, sorted: seq<Tagged<string>>, n: nat)
    requires Valid(c)
    requires n <= |sorted|
    requires StrictlySorted(sorted) && multiset(sorted) == multiset(AgeTags(c))
    ensures Doomed(sorted, n) <= c.entries.Keys
  {
    SortedTagFacts(c, sorted, n);
    forall k | k in Doomed(sorted, n)
      ensures k in c.entries
    {
      var m :| 0 <= m < n && sorted[m].item == k;
      assert sorted[m] in sorted;
    }
  }

  /** The first `n` sorted tags name `n` distinct keys of the cache. */
  lemma DoomedCount(c: Cache, sorted: seq<Tagged<string>>, n: nat)
    requires Valid(c)
    requires n <= |sorted|
    requires StrictlySorted(sorted) && multiset(sorted) == multiset(AgeTags(c))
    ensures Doomed(sorted, n) <= c.entries.Keys
    ensures |Doomed(sorted, n)| == n
    ensures |c.entries - Doomed(sorted, n)| == |c.entries| - n
  {
    SortedTagFacts(c, sorted, n);
    DoomedInCache(c, sorted, n);
    DistinctCardinality(Items(sorted[..n]));
    var doomed := Doomed(sorted, n);
    assert (c.entries - doomed).Keys == c.entries.Keys - doomed;
    RemoveSubset(c.entries.Keys, doomed);
  }

  /** A key among the first `n` sorted tags is evicted before a key outside
      them. */
  lemma DoomedBeforeKept(c: Cache, sorted: seq<Tagged<string>>, n: nat, i: nat, j: nat)
    requires Valid(c)
    requires n <= |sorted|
    requires StrictlySorted(sorted) && multiset(sorted) == multiset(AgeTags(c))
    requires i < |c.order| && j < |c.order|
    requires c.order[i] in Doomed(sorted, n) && c.order[j] !in Doomed(sorted, n)
    ensures EvictedBefore(c, i, j)
  {
    SortedTagFacts(c, sorted, n);
    var tags := AgeTags(c);
    var k :| 0 <= k < n && sorted[k].item == c.order[i];
    assert sorted[k] in sorted;
    assert sorted[k] == tags[i];
    assert tags[j] in multiset(sorted);
    var m :| 0 <= m < |sorted| && sorted[m] == tags[j];
    assert Precedes(sorted[k], sorted[m]);
  }

  /** Every key among the first `n` sorted tags is evicted before every key
      outside them. */
  lemma DoomedAreOldest(c: Cache, sorted: seq<Tagged<string>>, n: nat)
    requires Valid(c)
    requires n <= |sorted|
    requires StrictlySorted(sorted) && multiset(sorted) == multiset(AgeTags(c))
    ensures forall i, j ::
      (0 <= i < |c.order| && 0 <= j < |c.order| &&
       c.order[i] in Doomed(sorted, n) && c.order[j] !in Doomed(sorted, n))
      ==> EvictedBefore(c, i, j)
  {
    forall i, j |
      0 <= i < |c.order| && 0 <= j < |c.order| &&
      c.order[i] in Doomed(sorted, n) && c.order[j] !in Doomed(sorted, n)
      ensures EvictedBefore(c, i, j)
    {
      DoomedBeforeKept(c, sorted, n, i, j);
    }
  }

  /** The eviction at api/met.js:123-130: sort the entries stably by
      timestamp and delete the first `n`. */
  function EvictOldest(c: Cache, n: nat): (c': Cache)
    requires Valid(c)
    requires n <= |c.entries|
    ensures Valid(c')
    ensures |c'.entries| == |c.entries| - n
    ensures forall k :: k in c'.entries ==> k in c.entries && c'.entries[k] == c.entries[k]
    ensures c'.order == Filter(c.order, c'.entries.Keys)
    ensures forall i, j ::
      (0 <= i < |c.order| && 0 <= j < |c.order| &&
       c.order[i] !in c'.entries && c.order[j] in c'.entries)
      ==> EvictedBefore(c, i, j)
  {
    SizeIsOrderLength(c);
    var tags := AgeTags(c);
    assert DistinctPositions(tags);
    var sorted := Sort(tags);
    assert |sorted| == |multiset(sorted)| == |multiset(tags)| == |tags|;
    var doomed := Doomed(sorted, n);
    DoomedCount(c, sorted, n);
    DoomedAreOldest(c, sorted, n);
    var c' := Cache(c.entries - doomed, Filter(c.order, c.entries.Keys - doomed));
    assert c'.entries.Keys == c.entries.Keys - doomed;
    c'
  }

  /** The newest-last condition read at one position. It is a lemma of its
      own so that the quantifier is instantiated away from any eviction
      terms, where the solver would otherwise lose its way. */
  lemma StampBelowLast(c: Cache, j: nat)
    requires Valid(c) && j < |c.order|
    requires forall i :: 0 <= i < |c.order| ==> StampAt(c, i) <= StampAt(c, |c.order| - 1)
    ensures StampAt(c, j) <= StampAt(c, |c.order| - 1)
  {
  }

  /** Some key in insertion order survives an eviction that leaves
      something behind. */
  lemma SomeSurvivor(c: Cache, n: nat) returns (p: nat)
    requires Valid(c)
    requires n < |c.entries|
    ensures p < |c.order| && c.order[p] in EvictOldest(c, n).entries
  {
    var trimmed := EvictOldest(c, n);
    SizeIsOrderLength(trimmed);
    var survivor := trimmed.order[0];
    assert survivor in trimmed.entries;
    assert survivor in c.entries;
    p :| 0 <= p < |c.order| && c.order[p] == survivor;
  }

  /** The most recently inserted key survives an eviction that leaves
      something behind, when no other entry is newer than it. */
  lemma NewestLastSurvives(c: Cache, n: nat)
    requires Valid(c)
    requires n < |c.entries|
    requires forall i :: 0 <= i < |c.order| ==> StampAt(c, i) <= StampAt(c, |c.order| - 1)
    ensures c.order[|c.order| - 1] in EvictOldest(c, n).entries
  {
    SizeIsOrderLength(c);
    var p := SomeSurvivor(c, n);
    StampBelowLast(c, p);
    NewestKept(c, n, p);
  }

  /** When the last key is no older than a surviving key, it survives too. */
  lemma NewestKept(c: Cache, n: nat, j: nat)
    requires Valid(c)
    requires n <= |c.entries|
    requires j < |c.order|
    requires StampAt(c, j) <= StampAt(c, |c.order| - 1)
    requires c.order[j] in EvictOldest(c, n).entries
    ensures c.order[|c.order| - 1] in EvictOldest(c, n).entries
  {
    assert !EvictedBefore(c, |c.order| - 1, j);
  }
}
