/** Small shared vocabulary: an optional value, the two string operations the
    source relies on (`String.prototype.includes` and `split(c)[0]`), and facts
    about sequences without duplicates. */
module Base {

  /** A value that may be absent: JavaScript's `null`/`undefined`. */
  datatype Option<+T> = None | Some(value: T)

  /** `response.ok`: the status is in the 2xx range. */
  predicate HttpOk(status: int)
  {
    200 <= status <= 299
  }

  /** `s` starts with `pat` at offset `i`. */
  predicate OccursAt(s: string, pat: string, i: int)
  {
    0 <= i && i + |pat| <= |s| && s[i..i + |pat|] == pat
  }

  /** `s.includes(pat)`, computed by scanning `s` from the left. */
  function Contains(s: string, pat: string): (r: bool)
    ensures r <==> exists i :: OccursAt(s, pat, i)
    decreases |s|
  {
    if |s| < |pat| then
      assert forall i :: !OccursAt(s, pat, i);
      false
    else if s[..|pat|] == pat then
      assert OccursAt(s, pat, 0);
      true
    else
      var rest := Contains(s[1..], pat);
      ShiftOccurrence(s, pat);
      rest
  }

  /** An occurrence in `s` is at offset 0 or is an occurrence in `s[1..]`
      shifted by one. */
  lemma ShiftOccurrence(s: string, pat: string)
    requires |s| >= 1
    ensures (exists i :: OccursAt(s, pat, i))
        <==> OccursAt(s, pat, 0) || exists j :: OccursAt(s[1..], pat, j)
  {
    forall j | OccursAt(s[1..], pat, j)
      ensures OccursAt(s, pat, j + 1)
    {
      assert s[1..][j..j + |pat|] == s[j + 1..j + 1 + |pat|];
    }
    forall i | OccursAt(s, pat, i) && i > 0
      ensures OccursAt(s[1..], pat, i - 1)
    {
      assert s[1..][i - 1..i - 1 + |pat|] == s[i..i + |pat|];
    }
  }

  /** `s.split(c)[0]`: the part of `s` before the first `c`, or all of `s`
      when `c` does not occur. */
  function BeforeFirst(s: string, c: char): (r: string)
    ensures r <= s
    ensures c !in r
    ensures |r| < |s| ==> s[|r|] == c
  {
    if |s| == 0 then ""
    else if s[0] == c then ""
    else [s[0]] + BeforeFirst(s[1..], c)
  }

  /** A sequence in which no element appears twice. */
  predicate NoDuplicates<T(==)>(s: seq<T>)
  {
    forall i, j :: 0 <= i < j < |s| ==> s[i] != s[j]
  }

  /** The elements of a duplicate-free sequence number exactly its length. */
  lemma {:induction false} DistinctCardinality<T>(s: seq<T>)
    requires NoDuplicates(s)
    ensures |set x | x in s| == |s|
  {
    if |s| > 0 {
      var rest := s[1..];
      DistinctCardinality(rest);
      assert (set x | x in s) == (set x | x in rest) + {s[0]};
      assert forall k :: 0 <= k < |rest| ==> rest[k] == s[k + 1] != s[0];
    }
  }

  /** Joining two separator-free strings with the separator is injective:
      the separator marks where the first part ends. */
  lemma JoinInjective(a: string, b: string, c: string, d: string, sep: char)
    requires sep !in a && sep !in c
    requires a + [sep] + b == c + [sep] + d
    ensures a == c && b == d
  {
    var s := a + [sep] + b;
    assert s[|a|] == sep && s[|c|] == sep;
    assert forall i :: 0 <= i < |a| ==> s[i] == a[i] != sep;
    assert forall i :: 0 <= i < |c| ==> s[i] == c[i] != sep;
    assert |a| == |c|;
    assert a == s[..|a|] == c;
    assert b == s[|a| + 1..] == d;
  }

  /** Removing a subset removes exactly its elements. */
  lemma RemoveSubset<T>(a: set<T>, b: set<T>)
    requires b <= a
    ensures |a - b| == |a| - |b|
  {
    assert a == (a - b) + b;
    assert (a - b) * b == {};
  }
}
