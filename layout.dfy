/**
 * Lines 4-7 of `build_layout`: the values the region and brand dropdowns offer and the first and last
 * collection day the date picker allows.
 */
module Layout {
  import opened Wrappers
  import opened Strings
  import opened Records

  /** Strictly increasing in Python's string order, so sorted and without repeats. */
  predicate StrictlyAscending(s: seq<string>)
  {
    forall i, j :: 0 <= i < j < |s| ==> Below(s[i], s[j])
  }

  /** Puts `x` into its place in an ascending list, unless it is already there. */
  function InsertUnique(x: string, s: seq<string>): seq<string>
  {
    if s == [] then [x]
    else if x == s[0] then s
    else if Below(x, s[0]) then [x] + s
    else [s[0]] + InsertUnique(x, s[1..])
  }

  /** `sorted(column.dropna().unique())`: the distinct present values in ascending order. */
  function SortedUnique(vals: seq<Option<string>>): seq<string>
  {
    if vals == [] then []
    else
      var rest := SortedUnique(vals[..|vals| - 1]);
      var last := vals[|vals| - 1];
      if last.Some? then InsertUnique(last.value, rest) else rest
  }

  lemma {:induction false} InsertUniqueCorrect(x: string, s: seq<string>)
    requires StrictlyAscending(s)
    ensures StrictlyAscending(InsertUnique(x, s))
    ensures forall y :: y in InsertUnique(x, s) <==> y == x || y in s
  {
    if s != [] && x != s[0] {
      if Below(x, s[0]) {
        forall j | 0 <= j < |s|
          ensures Below(x, s[j])
        {
          if j > 0 {
            BelowTransitive(x, s[0], s[j]);
          }
        }
      } else {
        BelowTotal(x, s[0]);
        var t := s[1..];
        assert StrictlyAscending(t);
        InsertUniqueCorrect(x, t);
        var r := InsertUnique(x, t);
        forall j | 0 <= j < |r|
          ensures Below(s[0], r[j])
        {
          assert r[j] in r;
          if r[j] != x {
            assert r[j] in t;
            var k :| 0 <= k < |t| && t[k] == r[j];
            assert s[k + 1] == r[j];
          }
        }
        assert s == [s[0]] + t;
      }
    }
  }

  /** What is listed is ascending, each value once, and exactly the values present in the column. */
  lemma {:induction false} SortedUniqueCorrect(vals: seq<Option<string>>)
    ensures StrictlyAscending(SortedUnique(vals))
    ensures forall v :: v in SortedUnique(vals) <==> Some(v) in vals
  {
    if vals != [] {
      var init := vals[..|vals| - 1];
      SortedUniqueCorrect(init);
      assert vals == init + [vals[|vals| - 1]];
      if vals[|vals| - 1].Some? {
        InsertUniqueCorrect(vals[|vals| - 1].value, SortedUnique(init));
      }
    }
  }

  /** Strictly ascending lists repeat nothing. */
  lemma AscendingDistinct(s: seq<string>)
    requires StrictlyAscending(s)
    ensures forall i, j :: 0 <= i < j < |s| ==> s[i] != s[j]
  {
    forall i, j | 0 <= i < j < |s|
      ensures s[i] != s[j]
    {
      BelowIrreflexive(s[i]);
    }
  }

  /** `Series.min()` on dates: NaT is skipped, and the result is NaT when no date is defined. */
  function MinDate(days: seq<Option<int>>): (r: Option<int>)
    ensures r.None? <==> forall i :: 0 <= i < |days| ==> days[i].None?
    ensures r.Some? ==> r in days && forall i :: 0 <= i < |days| && days[i].Some? ==> r.value <= days[i].value
  {
    if days == [] then None
    else
      var m := MinDate(days[..|days| - 1]);
      var d := days[|days| - 1];
      assert days == days[..|days| - 1] + [d];
      if d.None? then m
      else if m.None? || d.value < m.value then d
      else m
  }

  /** `Series.max()` on dates. */
  function MaxDate(days: seq<Option<int>>): (r: Option<int>)
    ensures r.None? <==> forall i :: 0 <= i < |days| ==> days[i].None?
    ensures r.Some? ==> r in days && forall i :: 0 <= i < |days| && days[i].Some? ==> days[i].value <= r.value
  {
    if days == [] then None
    else
      var m := MaxDate(days[..|days| - 1]);
      var d := days[|days| - 1];
      assert days == days[..|days| - 1] + [d];
      if d.None? then m
      else if m.None? || d.value > m.value then d
      else m
  }

  function Regions(rows: seq<Record>): seq<Option<string>>
  {
    seq(|rows|, i requires 0 <= i < |rows| => rows[i].regiao)
  }

  function Brands(rows: seq<Record>): seq<Option<string>>
  {
    seq(|rows|, i requires 0 <= i < |rows| => rows[i].bandeira)
  }

  function Days(rows: seq<Record>): seq<Option<int>>
  {
    seq(|rows|, i requires 0 <= i < |rows| => rows[i].dataColeta)
  }

  /** `regioes`, `bandeiras`, `data_min` and `data_max`. */
  datatype Options = Options(regioes: seq<string>, bandeiras: seq<string>, dataMin: Option<int>, dataMax: Option<int>)

  function FilterOptions(df: seq<Record>): Options
  {
    Options(SortedUnique(Regions(df)), SortedUnique(Brands(df)), MinDate(Days(df)), MaxDate(Days(df)))
  }

  /** The regions listed are each present region once, in ascending order, and nothing else; so are the brands. */
  lemma OptionsListed(df: seq<Record>)
    ensures StrictlyAscending(FilterOptions(df).regioes) && StrictlyAscending(FilterOptions(df).bandeiras)
    ensures forall v :: v in FilterOptions(df).regioes <==> exists i :: 0 <= i < |df| && df[i].regiao == Some(v)
    ensures forall v :: v in FilterOptions(df).bandeiras <==> exists i :: 0 <= i < |df| && df[i].bandeira == Some(v)
    ensures forall i, j :: 0 <= i < j < |FilterOptions(df).regioes| ==> FilterOptions(df).regioes[i] != FilterOptions(df).regioes[j]
    ensures forall i, j :: 0 <= i < j < |FilterOptions(df).bandeiras| ==> FilterOptions(df).bandeiras[i] != FilterOptions(df).bandeiras[j]
  {
    SortedUniqueCorrect(Regions(df));
    SortedUniqueCorrect(Brands(df));
    AscendingDistinct(FilterOptions(df).regioes);
    AscendingDistinct(FilterOptions(df).bandeiras);
    forall v
      ensures Some(v) in Regions(df) <==> exists i :: 0 <= i < |df| && df[i].regiao == Some(v)
    {
      if exists i :: 0 <= i < |df| && df[i].regiao == Some(v) {
        var i :| 0 <= i < |df| && df[i].regiao == Some(v);
        assert Regions(df)[i] == Some(v);
      }
    }
    forall v
      ensures Some(v) in Brands(df) <==> exists i :: 0 <= i < |df| && df[i].bandeira == Some(v)
    {
      if exists i :: 0 <= i < |df| && df[i].bandeira == Some(v) {
        var i :| 0 <= i < |df| && df[i].bandeira == Some(v);
        assert Brands(df)[i] == Some(v);
      }
    }
  }

  /**
   * The date bounds are NaT exactly when no row has a date, and are otherwise the earliest and the
   * latest collection day, which some row has and which bound every row's day.
   */
  lemma DateBounds(df: seq<Record>)
    ensures FilterOptions(df).dataMin.None? <==> forall i :: 0 <= i < |df| ==> df[i].dataColeta.None?
    ensures FilterOptions(df).dataMax.None? <==> FilterOptions(df).dataMin.None?
    ensures FilterOptions(df).dataMin.Some? ==>
      (exists i :: 0 <= i < |df| && df[i].dataColeta == FilterOptions(df).dataMin) &&
      (exists i :: 0 <= i < |df| && df[i].dataColeta == FilterOptions(df).dataMax) &&
      FilterOptions(df).dataMin.value <= FilterOptions(df).dataMax.value &&
      forall i :: 0 <= i < |df| && df[i].dataColeta.Some? ==>
        FilterOptions(df).dataMin.value <= df[i].dataColeta.value <= FilterOptions(df).dataMax.value
  {
    var o := FilterOptions(df);
    var days := Days(df);
    assert forall i :: 0 <= i < |df| ==> days[i] == df[i].dataColeta;
    if o.dataMin.Some? {
      var i :| 0 <= i < |days| && days[i] == o.dataMin;
      var j :| 0 <= j < |days| && days[j] == o.dataMax;
      assert df[i].dataColeta == o.dataMin && df[j].dataColeta == o.dataMax;
    }
  }
}
