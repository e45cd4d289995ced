/** `parseMetEireannForecast` (old/src/App.jsx:119-147): turns the `<time>`
    elements of a forecast document into a sunny/not-sunny verdict per
    calendar date.

    The XML itself is not modelled: a document is the list of its `<time>`
    elements, each reduced to its `from` attribute and the `number` attribute
    of its first `<symbol>` as `parseInt` reads it. */
module ForecastParser {
  import opened Base

  /** The symbol number of one sample. `Absent` covers a missing `<symbol>`,
      a missing `number` attribute and an empty one: all three fall back to
      the default `'4'`. `NaN` is text that `parseInt` cannot read. */
  datatype SymbolNumber = Absent | Number(n: int) | NaN

  /** One `<time>` element; `from` is `None` when the attribute is missing. */
  datatype Sample = Sample(from: Option<string>, symbol: SymbolNumber)

  /** Calendar date (the text before the first 'T') to verdict. */
  type Forecast = map<string, bool>

  /** The code used when a sample has no symbol number ("cloudy"). */
  const DefaultCode: int := 4

  /** The highest symbol code counted as sunny/fair. */
  const FairCeiling: int := 3

  /** The code pushed for a sample; `None` stands for `NaN`. */
  function CodeOf(s: SymbolNumber): Option<int>
  {
    match s
    case Absent => Some(DefaultCode)
    case Number(n) => Some(n)
    case NaN => None
  }

  /** `c <= 3`; every comparison with `NaN` is false. */
  predicate IsSunnyCode(c: Option<int>)
  {
    c.Some? && c.value <= FairCeiling
  }

  /** `codes.filter(c => c <= 3).length`. */
  function SunnyCount(codes: seq<Option<int>>): (r: nat)
    ensures r <= |codes|
  {
    if |codes| == 0 then 0
    else (if IsSunnyCode(codes[0]) then 1 else 0) + SunnyCount(codes[1..])
  }

  /** `sunnyPeriods >= codes.length * 0.5`, exact in integers. */
  predicate DayIsSunny(codes: seq<Option<int>>)
  {
    2 * SunnyCount(codes) >= |codes|
  }

  /** `from.split('T')[0]`. */
  function DateOf(from: string): string
  {
    BeforeFirst(from, 'T')
  }

  /** Every sample has a `from` attribute; otherwise `from.split` throws. */
  predicate AllTimed(samples: seq<Sample>)
  {
    forall i :: 0 <= i < |samples| ==> samples[i].from.Some?
  }

  /** Some sample falls on `date`. */
  predicate HasSampleOn(samples: seq<Sample>, date: string)
    requires AllTimed(samples)
  {
    exists i :: 0 <= i < |samples| && DateOf(samples[i].from.value) == date
  }

  /** The reference reading: all codes of samples on `date`, in document
      order. */
  function CodesOn(samples: seq<Sample>, date: string): seq<Option<int>>
    requires AllTimed(samples)
  {
    if |samples| == 0 then []
    else
      var last := samples[|samples| - 1];
      CodesOn(samples[..|samples| - 1], date)
        + (if DateOf(last.from.value) == date then [CodeOf(last.symbol)] else [])
  }

  /** `dailyForecasts` after the `forEach` over the samples: each sample's
      code pushed onto the list for its date. */
  function Group(samples: seq<Sample>): map<string, seq<Option<int>>>
    requires AllTimed(samples)
  {
    if |samples| == 0 then map[]
    else
      var g := Group(samples[..|samples| - 1]);
      var last := samples[|samples| - 1];
      var date := DateOf(last.from.value);
      g[date := (if date in g then g[date] else []) + [CodeOf(last.symbol)]]
  }

  /** The grouping files every sample under its date and no date is made up:
      a date has a list iff some sample falls on it, and its list is exactly
      the codes of the samples on that date. */
  lemma {:induction false} GroupIsCodesOn(samples: seq<Sample>)
    requires AllTimed(samples)
    ensures forall d :: d in Group(samples) <==> HasSampleOn(samples, d)
    ensures forall d :: d in Group(samples) ==> Group(samples)[d] == CodesOn(samples, d)
  {
    if |samples| > 0 {
      var init := samples[..|samples| - 1];
      var last := samples[|samples| - 1];
      assert AllTimed(init);
      GroupIsCodesOn(init);
      forall d
        ensures HasSampleOn(samples, d) <==> HasSampleOn(init, d) || DateOf(last.from.value) == d
      {
        if HasSampleOn(samples, d) {
          var i :| 0 <= i < |samples| && DateOf(samples[i].from.value) == d;
          if i < |init| {
            assert init[i] == samples[i];
          }
        }
        if HasSampleOn(init, d) {
          var i :| 0 <= i < |init| && DateOf(init[i].from.value) == d;
          assert samples[i] == init[i];
        }
      }
      forall d | d !in Group(init)
        ensures CodesOn(init, d) == []
      {
        NoSampleNoCodes(init, d);
      }
    }
  }

  /** A date without samples collects no codes. */
  lemma {:induction false} NoSampleNoCodes(samples: seq<Sample>, date: string)
    requires AllTimed(samples)
    requires !HasSampleOn(samples, date)
    ensures CodesOn(samples, date) == []
  {
    if |samples| > 0 {
      var init := samples[..|samples| - 1];
      assert AllTimed(init);
      assert !HasSampleOn(init, date) by {
        forall i | 0 <= i < |init|
          ensures DateOf(init[i].from.value) != date
        {
          assert init[i] == samples[i];
        }
      }
      NoSampleNoCodes(init, date);
    }
  }

  /** The parser. `None` models the exception thrown when a sample has no
      `from` attribute. */
  function Parse(samples: seq<Sample>): (r: Option<Forecast>)
    ensures r.Some? <==> AllTimed(samples)
    ensures r.Some? ==> forall d :: d in r.value <==> HasSampleOn(samples, d)
    ensures r.Some? ==> forall d :: d in r.value ==> (r.value[d] <==> DayIsSunny(CodesOn(samples, d)))
  {
    if !AllTimed(samples) then None
    else
      var groups := Group(samples);
      GroupIsCodesOn(samples);
      Some(map d | d in groups :: DayIsSunny(groups[d]))
  }

  /** Counting sunny codes distributes over concatenation. */
  lemma {:induction false} SunnyCountAppend(a: seq<Option<int>>, b: seq<Option<int>>)
    ensures SunnyCount(a + b) == SunnyCount(a) + SunnyCount(b)
  {
    if |a| > 0 {
      assert (a + b)[1..] == a[1..] + b;
      SunnyCountAppend(a[1..], b);
    } else {
      assert a + b == b;
    }
  }

  /** A sample that is not sunny (including one with no symbol, read as 4,
      and one whose number is `NaN`) still counts in its day's denominator:
      its day gets one more code and no more sunny codes. */
  lemma NotSunnySampleDilutes(samples: seq<Sample>, s: Sample)
    requires AllTimed(samples) && s.from.Some?
    requires !IsSunnyCode(CodeOf(s.symbol))
    ensures AllTimed(samples + [s])
    ensures var d := DateOf(s.from.value);
      && |CodesOn(samples + [s], d)| == |CodesOn(samples, d)| + 1
      && SunnyCount(CodesOn(samples + [s], d)) == SunnyCount(CodesOn(samples, d))
  {
    var more := samples + [s];
    assert AllTimed(more);
    assert more[..|more| - 1] == samples;
    var d := DateOf(s.from.value);
    SunnyCountAppend(CodesOn(samples, d), [CodeOf(s.symbol)]);
  }

  /** The classification of symbol numbers: 3 and below (also 0 and negative
      numbers) are sunny; the default 4, higher codes and `NaN` are not. */
  lemma SymbolExamples()
    ensures IsSunnyCode(CodeOf(Number(1))) && IsSunnyCode(CodeOf(Number(3)))
    ensures IsSunnyCode(CodeOf(Number(0))) && IsSunnyCode(CodeOf(Number(-2)))
    ensures !IsSunnyCode(CodeOf(Number(4))) && !IsSunnyCode(CodeOf(Number(10)))
    ensures !IsSunnyCode(CodeOf(Absent)) && !IsSunnyCode(CodeOf(NaN))
  {
  }

  /** The 50% threshold with ties going to sunny: one sunny code out of two
      makes a sunny day, one out of three does not. */
  lemma ThresholdExamples()
    ensures DayIsSunny([Some(1), Some(10)])
    ensures !DayIsSunny([Some(10), Some(10), Some(1)])
    ensures DayIsSunny([CodeOf(Number(2)), CodeOf(Absent)])
    ensures !DayIsSunny([CodeOf(NaN), CodeOf(Absent), CodeOf(Number(1))])
  {
  }

  /** When every sample falls on `day`, the parse has that single date,
      decided by all the samples' codes. */
  lemma SingleDate(s: seq<Sample>, day: string)
    requires |s| > 0 && AllTimed(s)
    requires forall i :: 0 <= i < |s| ==> DateOf(s[i].from.value) == day
    ensures Parse(s) == Some(map[day := DayIsSunny(CodesOn(s, day))])
  {
    assert HasSampleOn(s, day) by {
      assert DateOf(s[0].from.value) == day;
    }
    var r := Parse(s).value;
    assert r.Keys == {day};
    assert r[day] == DayIsSunny(CodesOn(s, day));
    assert r == map[day := DayIsSunny(CodesOn(s, day))];
  }
}
