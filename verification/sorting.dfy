/** Stable sorting by an integer key, as `Array.prototype.sort` does with a
    numeric comparator (`(a, b) => a.key - b.key`).

    A stable sort of a sequence orders its elements by key and keeps elements
    with equal keys in their original order. Tagging every element with its
    original position turns that into sorting by the pair (key, position)
    lexicographically: a strict total order on the tags, whose sorted
    permutation is unique. */
module Sorting {

  /** An element together with its sort key and its position in the input. */
  datatype Tagged<T> = Tagged(key: int, pos: nat, item: T)

  /** `a` comes before `b` in a stable sort: smaller key, or the same key and
      an earlier position. */
  predicate Precedes<T>(a: Tagged<T>, b: Tagged<T>)
  {
    a.key < b.key || (a.key == b.key && a.pos < b.pos)
  }

  /** Every element comes before every later one. */
  predicate StrictlySorted<T>(s: seq<Tagged<T>>)
  {
    forall i, j :: 0 <= i < j < |s| ==> Precedes(s[i], s[j])
  }

  /** No two elements share a position. */
  predicate DistinctPositions<T>(s: seq<Tagged<T>>)
  {
    forall i, j :: 0 <= i < j < |s| ==> s[i].pos != s[j].pos
  }

  /** Inserts `x` into its place in a sorted sequence. */
  function Insert<T>(x: Tagged<T>, s: seq<Tagged<T>>): (r: seq<Tagged<T>>)
    requires StrictlySorted(s)
    requires forall y | y in s :: y.pos != x.pos
    ensures StrictlySorted(r)
    ensures multiset(r) == multiset(s) + multiset{x}
  {
    if |s| == 0 then [x]
    else if Precedes(x, s[0]) then
      assert s == [s[0]] + s[1..];
      [x] + s
    else
      assert s == [s[0]] + s[1..];
      assert Precedes(s[0], x);
      var rest := Insert(x, s[1..]);
      ConsSorted(s[0], x, s[1..], rest);
      [s[0]] + rest
  }

  /** Putting `h` in front of a sorted arrangement of `tail` and `x` keeps it
      sorted when `h` precedes all of them. */
  lemma ConsSorted<T>(h: Tagged<T>, x: Tagged<T>, tail: seq<Tagged<T>>, rest: seq<Tagged<T>>)
    requires StrictlySorted(rest)
    requires multiset(rest) == multiset(tail) + multiset{x}
    requires Precedes(h, x)
    requires forall k :: 0 <= k < |tail| ==> Precedes(h, tail[k])
    ensures StrictlySorted([h] + rest)
  {
    forall k | 0 <= k < |rest|
      ensures Precedes(h, rest[k])
    {
      assert rest[k] in multiset(rest);
      if rest[k] != x {
        assert rest[k] in multiset(tail);
      }
    }
  }

  /** Insertion sort on (key, position). */
  function Sort<T>(s: seq<Tagged<T>>): (r: seq<Tagged<T>>)
    requires DistinctPositions(s)
    ensures StrictlySorted(r)
    ensures multiset(r) == multiset(s)
  {
    if |s| == 0 then []
    else
      TailDistinct(s);
      var rest := Sort(s[1..]);
      HeadPositionFresh(s, rest);
      assert s == [s[0]] + s[1..];
      Insert(s[0], rest)
  }

  /** Dropping the head keeps positions distinct. */
  lemma TailDistinct<T>(s: seq<Tagged<T>>)
    requires |s| > 0 && DistinctPositions(s)
    ensures DistinctPositions(s[1..])
  {
    var tail := s[1..];
    forall i, j | 0 <= i < j < |tail|
      ensures tail[i].pos != tail[j].pos
    {
      assert tail[i] == s[i + 1] && tail[j] == s[j + 1];
    }
  }

  /** No rearrangement of the tail shares the head's position. */
  lemma HeadPositionFresh<T>(s: seq<Tagged<T>>, rest: seq<Tagged<T>>)
    requires |s| > 0 && DistinctPositions(s)
    requires multiset(rest) == multiset(s[1..])
    ensures forall y | y in rest :: y.pos != s[0].pos
  {
    forall y | y in rest
      ensures y.pos != s[0].pos
    {
      assert y in multiset(rest);
      assert y in multiset(s[1..]);
      var k :| 0 <= k < |s[1..]| && s[1..][k] == y;
      assert y == s[k + 1];
    }
  }

  /** Two sorted arrangements of the same tags start with the same tag. */
  lemma SameHead<T>(a: seq<Tagged<T>>, b: seq<Tagged<T>>)
    requires |a| > 0 && |b| > 0
    requires StrictlySorted(a) && StrictlySorted(b)
    requires multiset(a) == multiset(b)
    ensures a[0] == b[0]
  {
    assert a[0] in multiset(b) && b[0] in multiset(a);
    var i :| 0 <= i < |a| && a[i] == b[0];
    var j :| 0 <= j < |b| && b[j] == a[0];
    FirstIsLeast(a, i);
    FirstIsLeast(b, j);
  }

  /** The first tag of a sorted sequence precedes every other one. Kept
      separate so that the sortedness quantifier is instantiated in a small
      context, and both disjuncts are evaluated only where they are
      reachable. */
  lemma FirstIsLeast<T>(s: seq<Tagged<T>>, k: nat)
    requires StrictlySorted(s) && k < |s|
    ensures s[k] == s[0] || Precedes(s[0], s[k])
  {
  }

  /** Equal multisets with equal heads have equal tails. */
  lemma SameTailMultiset<T>(a: seq<Tagged<T>>, b: seq<Tagged<T>>)
    requires |a| > 0 && |b| > 0 && a[0] == b[0]
    requires multiset(a) == multiset(b)
    ensures multiset(a[1..]) == multiset(b[1..])
  {
    assert a == [a[0]] + a[1..] && b == [b[0]] + b[1..];
    assert multiset(a) == multiset{a[0]} + multiset(a[1..]);
    assert multiset(b) == multiset{a[0]} + multiset(b[1..]);
    forall z
      ensures multiset(a[1..])[z] == multiset(b[1..])[z]
    {
      assert multiset(a)[z] == multiset{a[0]}[z] + multiset(a[1..])[z];
      assert multiset(b)[z] == multiset{a[0]}[z] + multiset(b[1..])[z];
    }
  }

  /** A stable sort has exactly one possible outcome: any two sorted
      arrangements of the same tags are equal. */
  lemma {:induction false} SortedPermutationUnique<T>(a: seq<Tagged<T>>, b: seq<Tagged<T>>)
    requires StrictlySorted(a) && StrictlySorted(b)
    requires multiset(a) == multiset(b)
    ensures a == b
  {
    assert |a| == |multiset(a)| == |multiset(b)| == |b|;
    if |a| > 0 {
      SameHead(a, b);
      SameTailMultiset(a, b);
      SortedPermutationUnique(a[1..], b[1..]);
      assert a == [a[0]] + a[1..] && b == [b[0]] + b[1..];
    }
  }

  /** The items of a tagged sequence, in order. */
  function Items<T>(s: seq<Tagged<T>>): (r: seq<T>)
    ensures |r| == |s|
    ensures forall i :: 0 <= i < |s| ==> r[i] == s[i].item
  {
    if |s| == 0 then [] else [s[0].item] + Items(s[1..])
  }
}
