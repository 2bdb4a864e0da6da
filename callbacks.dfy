/**
 * `atualizar_graficos` of dashboard/callbacks: the rows the four widgets select, and the tables the
 * six charts are drawn from. The callback starts from `df.copy()` and only rebinds its local
 * `dados`, so it is a function of the loaded table and the selection; the table itself is never
 * changed.
 */
module Callbacks {
  import opened Wrappers
  import opened Records
  import opened Sorting
  import opened Grouping

  /**
   * The callback's four inputs: the chosen regions and brands (`None` while a dropdown is cleared) and
   * the two ends of the date picker, as day keys (`None` while unset).
   */
  datatype Selection = Selection(
    regioes: Option<seq<string>>,
    bandeiras: Option<seq<string>>,
    inicio: Option<int>,
    fim: Option<int>)

  // ---------------------------------------------------------------- the three tests

  /** Python truthiness of a dropdown value: present and not the empty list. */
  predicate Chosen(choice: Option<seq<string>>)
  {
    choice.Some? && choice.value != []
  }

  /** `if data_inicio and data_fim`: the range applies only when both ends are set. */
  predicate DateActive(sel: Selection)
  {
    sel.inicio.Some? && sel.fim.Some?
  }

  /** `(data_coleta >= di) & (data_coleta <= df_)`: both ends inclusive, and false for NaT. */
  predicate InRange(x: Record, lo: int, hi: int)
  {
    x.dataColeta.Some? && lo <= x.dataColeta.value <= hi
  }

  /** `Series.isin(chosen)` for one cell: NaN belongs to no list of strings. */
  predicate IsIn(v: Option<string>, chosen: seq<string>)
  {
    v.Some? && v.value in chosen
  }

  /** Whether a row passes each test, a test that is switched off passing every row. */
  predicate DateOk(sel: Selection, x: Record)
  {
    DateActive(sel) ==> InRange(x, sel.inicio.value, sel.fim.value)
  }

  predicate RegionOk(sel: Selection, x: Record)
  {
    Chosen(sel.regioes) ==> IsIn(x.regiao, sel.regioes.value)
  }

  predicate BrandOk(sel: Selection, x: Record)
  {
    Chosen(sel.bandeiras) ==> IsIn(x.bandeira, sel.bandeiras.value)
  }

  predicate Keeps(sel: Selection, x: Record)
  {
    DateOk(sel, x) && RegionOk(sel, x) && BrandOk(sel, x)
  }

  /** The tests as function values, for `Where`. */
  function DateTest(sel: Selection): Record -> bool { (x: Record) => DateOk(sel, x) }

  function RegionTest(sel: Selection): Record -> bool { (x: Record) => RegionOk(sel, x) }

  function BrandTest(sel: Selection): Record -> bool { (x: Record) => BrandOk(sel, x) }

  function KeepTest(sel: Selection): Record -> bool { (x: Record) => Keeps(sel, x) }

  // ---------------------------------------------------------------- boolean indexing

  /** `dados[mask]`: the rows satisfying `p`, in their order. */
  function Where(rows: seq<Record>, p: Record -> bool): (r: seq<Record>)
    ensures |r| <= |rows|
  {
    if rows == [] then []
    else Where(rows[..|rows| - 1], p) + (if p(rows[|rows| - 1]) then [rows[|rows| - 1]] else [])
  }

  /** `a` is `b` with some elements deleted: the last of `b` is either kept as the last of `a` or dropped. */
  predicate Subsequence<T(==)>(a: seq<T>, b: seq<T>)
    decreases |b|
  {
    if b == [] then a == []
    else (a != [] && a[|a| - 1] == b[|b| - 1] && Subsequence(a[..|a| - 1], b[..|b| - 1]))
         || Subsequence(a, b[..|b| - 1])
  }

  lemma {:induction false} WhereMembers(rows: seq<Record>, p: Record -> bool)
    ensures forall x :: x in Where(rows, p) <==> x in rows && p(x)
  {
    if rows != [] {
      var q := rows[..|rows| - 1];
      WhereMembers(q, p);
      assert rows == q + [rows[|rows| - 1]];
    }
  }

  /** Boolean indexing keeps every copy of a passing row and no copy of a failing one. */
  lemma {:induction false} WhereMultiset(rows: seq<Record>, p: Record -> bool)
    ensures forall x :: multiset(Where(rows, p))[x] == if p(x) then multiset(rows)[x] else 0
  {
    if rows != [] {
      var q := rows[..|rows| - 1];
      WhereMultiset(q, p);
      assert rows == q + [rows[|rows| - 1]];
    }
  }

  lemma {:induction false} WhereSubsequence(rows: seq<Record>, p: Record -> bool)
    ensures Subsequence(Where(rows, p), rows)
  {
    if rows != [] {
      var q := rows[..|rows| - 1];
      WhereSubsequence(q, p);
      var w := Where(rows, p);
      if p(rows[|rows| - 1]) {
        assert w[..|w| - 1] == Where(q, p);
      } else {
        assert w == Where(q, p);
      }
    }
  }

  /** A mask every row passes keeps the whole table. */
  lemma {:induction false} WhereAll(rows: seq<Record>, p: Record -> bool)
    requires forall i :: 0 <= i < |rows| ==> p(rows[i])
    ensures Where(rows, p) == rows
  {
    if rows != [] {
      var q := rows[..|rows| - 1];
      assert forall i :: 0 <= i < |q| ==> q[i] == rows[i];
      WhereAll(q, p);
    }
  }

  /** Two masks in a row are one mask testing both. */
  lemma {:induction false} WhereWhere(rows: seq<Record>, p: Record -> bool, q: Record -> bool, both: Record -> bool)
    requires forall i :: 0 <= i < |rows| ==> both(rows[i]) == (p(rows[i]) && q(rows[i]))
    ensures Where(Where(rows, p), q) == Where(rows, both)
  {
    if rows != [] {
      var init := rows[..|rows| - 1];
      var x := rows[|rows| - 1];
      assert forall i :: 0 <= i < |init| ==> init[i] == rows[i];
      WhereWhere(init, p, q, both);
      var w := Where(init, p);
      if p(x) {
        assert Where(rows, p) == w + [x];
        assert (w + [x])[..|w|] == w;
      } else {
        assert Where(rows, p) == w;
      }
    }
  }

  /** Masks that agree on every row select the same rows. */
  lemma {:induction false} WhereSame(rows: seq<Record>, p: Record -> bool, q: Record -> bool)
    requires forall i :: 0 <= i < |rows| ==> p(rows[i]) == q(rows[i])
    ensures Where(rows, p) == Where(rows, q)
  {
    if rows != [] {
      var init := rows[..|rows| - 1];
      assert forall i :: 0 <= i < |init| ==> init[i] == rows[i];
      WhereSame(init, p, q);
    }
  }

  lemma WhereCommute(rows: seq<Record>, p: Record -> bool, q: Record -> bool)
    ensures Where(Where(rows, p), q) == Where(Where(rows, q), p)
  {
    var both := (x: Record) => p(x) && q(x);
    WhereWhere(rows, p, q, both);
    WhereWhere(rows, q, p, both);
  }

  // ---------------------------------------------------------------- the filter

  /** Lines 25-28: the date range, when both ends are set. */
  function ByDate(rows: seq<Record>, sel: Selection): seq<Record>
  {
    if DateActive(sel) then Where(rows, DateTest(sel)) else rows
  }

  /** Lines 30-31: the regions, when some are chosen. */
  function ByRegion(rows: seq<Record>, sel: Selection): seq<Record>
  {
    if Chosen(sel.regioes) then Where(rows, RegionTest(sel)) else rows
  }

  /** Lines 33-34: the brands, when some are chosen. */
  function ByBrand(rows: seq<Record>, sel: Selection): seq<Record>
  {
    if Chosen(sel.bandeiras) then Where(rows, BrandTest(sel)) else rows
  }

  /** `dados` after the three tests, in the order the callback applies them. */
  function Filter(df: seq<Record>, sel: Selection): seq<Record>
  {
    ByBrand(ByRegion(ByDate(df, sel), sel), sel)
  }

  /** Each stage is a mask, which passes every row when the stage is switched off. */
  lemma Stages(rows: seq<Record>, sel: Selection)
    ensures ByDate(rows, sel) == Where(rows, DateTest(sel))
    ensures ByRegion(rows, sel) == Where(rows, RegionTest(sel))
    ensures ByBrand(rows, sel) == Where(rows, BrandTest(sel))
  {
    if !DateActive(sel) {
      WhereAll(rows, DateTest(sel));
    }
    if !Chosen(sel.regioes) {
      WhereAll(rows, RegionTest(sel));
    }
    if !Chosen(sel.bandeiras) {
      WhereAll(rows, BrandTest(sel));
    }
  }

  /** The three stages are one mask: a row is kept exactly when it passes every active test. */
  lemma FilterWhere(df: seq<Record>, sel: Selection)
    ensures Filter(df, sel) == Where(df, KeepTest(sel))
  {
    var d := ByDate(df, sel);
    Stages(df, sel);
    Stages(d, sel);
    Stages(ByRegion(d, sel), sel);
    var dr := (x: Record) => DateOk(sel, x) && RegionOk(sel, x);
    WhereWhere(df, DateTest(sel), RegionTest(sel), dr);
    WhereWhere(df, dr, BrandTest(sel), KeepTest(sel));
  }

  /**
   * The selected rows keep their order and are taken from `df`: a row that passes each active test
   * is kept as many times as it occurs in `df`, any other row not at all, so no NaT date survives an
   * active range.
   */
  lemma FilterCorrect(df: seq<Record>, sel: Selection)
    ensures Subsequence(Filter(df, sel), df)
    ensures |Filter(df, sel)| <= |df|
    ensures forall x :: x in Filter(df, sel) <==>
      x in df && DateOk(sel, x) && RegionOk(sel, x) && BrandOk(sel, x)
    ensures forall x :: multiset(Filter(df, sel))[x] == if Keeps(sel, x) then multiset(df)[x] else 0
    ensures DateActive(sel) ==> forall x :: x in Filter(df, sel) ==>
      x.dataColeta.Some? && sel.inicio.value <= x.dataColeta.value <= sel.fim.value
    ensures Chosen(sel.regioes) ==> forall x :: x in Filter(df, sel) ==>
      x.regiao.Some? && x.regiao.value in sel.regioes.value
    ensures Chosen(sel.bandeiras) ==> forall x :: x in Filter(df, sel) ==>
      x.bandeira.Some? && x.bandeira.value in sel.bandeiras.value
  {
    FilterWhere(df, sel);
    WhereSubsequence(df, KeepTest(sel));
    WhereMembers(df, KeepTest(sel));
    WhereMultiset(df, KeepTest(sel));
  }

  /** With no range and nothing chosen the whole table is shown. */
  lemma FilterNothing(df: seq<Record>, sel: Selection)
    requires !DateActive(sel) && !Chosen(sel.regioes) && !Chosen(sel.bandeiras)
    ensures Filter(df, sel) == df
  {
  }

  /** Filtering what was already filtered changes nothing. */
  lemma FilterIdempotent(df: seq<Record>, sel: Selection)
    ensures Filter(Filter(df, sel), sel) == Filter(df, sel)
  {
    var f := Filter(df, sel);
    FilterWhere(df, sel);
    FilterWhere(f, sel);
    WhereWhere(df, KeepTest(sel), KeepTest(sel), KeepTest(sel));
  }

  /** The three stages commute, so any order of them selects the same rows. */
  lemma FilterOrder(rows: seq<Record>, sel: Selection)
    ensures ByDate(ByRegion(rows, sel), sel) == ByRegion(ByDate(rows, sel), sel)
    ensures ByDate(ByBrand(rows, sel), sel) == ByBrand(ByDate(rows, sel), sel)
    ensures ByRegion(ByBrand(rows, sel), sel) == ByBrand(ByRegion(rows, sel), sel)
  {
    Stages(rows, sel);
    Stages(ByDate(rows, sel), sel);
    Stages(ByRegion(rows, sel), sel);
    Stages(ByBrand(rows, sel), sel);
    WhereCommute(rows, DateTest(sel), RegionTest(sel));
    WhereCommute(rows, DateTest(sel), BrandTest(sel));
    WhereCommute(rows, RegionTest(sel), BrandTest(sel));
  }

  // ---------------------------------------------------------------- the chart tables

  function UfKey(x: Record): Option<string> { x.uf }

  function BrandKey(x: Record): Option<string> { x.bandeira }

  /** `groupby(["data_coleta", "regiao"])` drops a row when either key is missing. */
  function DateRegionKey(x: Record): Option<(int, string)>
  {
    if x.dataColeta.Some? && x.regiao.Some? then Some((x.dataColeta.value, x.regiao.value)) else None
  }

  /** The `(key, valor_venda)` pairs a group-by reads. */
  function Samples<K>(rows: seq<Record>, key: Record -> Option<K>): seq<Sample<K>>
  {
    seq(|rows|, i requires 0 <= i < |rows| => Sample(key(rows[i]), rows[i].valorVenda))
  }

  /** `sort_values("data_coleta")` ascending, as a descending sort on the negated day. */
  function EarlierFirst(m: Mean<(int, string)>): real
  {
    -(m.key.0 as real)
  }

  /** Lines 37-40: mean price per state, highest first. */
  function MeanByState(rows: seq<Record>): seq<Mean<string>>
  {
    SortDesc(MeanTable(Samples(rows, UfKey)), MeanValue)
  }

  /** Lines 45-48: mean price per (day, region), earliest day first. */
  function MeanByDateRegion(rows: seq<Record>): seq<Mean<(int, string)>>
  {
    SortDesc(MeanTable(Samples(rows, DateRegionKey)), EarlierFirst)
  }

  /** Lines 53-56: mean price per brand, highest first. */
  function MeanByBrand(rows: seq<Record>): seq<Mean<string>>
  {
    SortDesc(MeanTable(Samples(rows, BrandKey)), MeanValue)
  }

  /** Lines 67-68: `value_counts()` of the brand, largest count first. */
  function BrandCounts(rows: seq<Record>): seq<Tally<string>>
  {
    SortDesc(TallyTable(Samples(rows, BrandKey)), TallyCount)
  }

  /** The price column, for the histogram (line 61). */
  function Prices(rows: seq<Record>): seq<real>
  {
    seq(|rows|, i requires 0 <= i < |rows| => rows[i].valorVenda)
  }

  /** The `(bandeira, valor_venda)` pairs, for the box plot (line 64). */
  function BrandPrices(rows: seq<Record>): seq<(Option<string>, real)>
  {
    seq(|rows|, i requires 0 <= i < |rows| => (rows[i].bandeira, rows[i].valorVenda))
  }

  /** What the six figures are drawn from, in the order the callback returns them. */
  datatype Views = Views(
    estado: seq<Mean<string>>,
    linha: seq<Mean<(int, string)>>,
    bandeira: seq<Mean<string>>,
    histograma: seq<real>,
    box: seq<(Option<string>, real)>,
    pizza: seq<Tally<string>>)

  function AtualizarGraficos(df: seq<Record>, sel: Selection): Views
  {
    var dados := Filter(df, sel);
    Views(MeanByState(dados), MeanByDateRegion(dados), MeanByBrand(dados), Prices(dados), BrandPrices(dados),
          BrandCounts(dados))
  }

  // ---------------------------------------------------------------- what the tables hold

  /** `m` is the mean of its key's group in `s`, which is not empty, and lies within the group's values. */
  predicate IsGroupMean<K(==)>(s: seq<Sample<K>>, m: Mean<K>)
  {
    CountFor(s, m.key) >= 1 &&
    m.value == SumFor(s, m.key) / CountFor(s, m.key) as real &&
    MinFor(s, m.key) <= m.value <= MaxFor(s, m.key)
  }

  /** A sorted mean table has a row for exactly the keys present. */
  lemma MeansPresent<K(!new)>(s: seq<Sample<K>>, rank: Mean<K> -> real, k: K)
    ensures k in KeysOf(s) <==>
      exists i :: 0 <= i < |SortDesc(MeanTable(s), rank)| && SortDesc(MeanTable(s), rank)[i].key == k
  {
    var t := MeanTable(s);
    var r := SortDesc(t, rank);
    MeanTableCorrect(s);
    SortDescMembers(t, rank);
    if k in KeysOf(s) {
      var j :| 0 <= j < |t| && t[j].key == k;
      assert t[j] in r;
    }
    if exists i :: 0 <= i < |r| && r[i].key == k {
      var i :| 0 <= i < |r| && r[i].key == k;
      assert r[i] in t;
    }
  }

  /** Every row of a sorted mean table is its key's group mean. */
  lemma MeansRows<K(!new)>(s: seq<Sample<K>>, rank: Mean<K> -> real)
    ensures forall i :: 0 <= i < |SortDesc(MeanTable(s), rank)| ==> IsGroupMean(s, SortDesc(MeanTable(s), rank)[i])
  {
    var t := MeanTable(s);
    var r := SortDesc(t, rank);
    MeanTableCorrect(s);
    SortDescMembers(t, rank);
    forall i | 0 <= i < |r|
      ensures IsGroupMean(s, r[i])
    {
      SortDescKeeps(t, rank, r[i]);
      KeysOfCount(s, r[i].key);
      MeanBetween(s, r[i].key);
    }
  }

  /** A sorted mean table: ordered by `rank`, a permutation of the groups' means, one row per present key. */
  lemma SortedMeans<K(!new)>(s: seq<Sample<K>>, rank: Mean<K> -> real)
    ensures Descending(SortDesc(MeanTable(s), rank), rank)
    ensures multiset(SortDesc(MeanTable(s), rank)) == multiset(MeanTable(s))
    ensures DistinctBy(SortDesc(MeanTable(s), rank), MeanKey)
    ensures forall k :: k in KeysOf(s) <==>
      exists i :: 0 <= i < |SortDesc(MeanTable(s), rank)| && SortDesc(MeanTable(s), rank)[i].key == k
    ensures forall i :: 0 <= i < |SortDesc(MeanTable(s), rank)| ==> IsGroupMean(s, SortDesc(MeanTable(s), rank)[i])
  {
    var t := MeanTable(s);
    MeanTableCorrect(s);
    SortDescCorrect(t, rank);
    SortDescDistinct(t, rank, MeanKey);
    forall k
      ensures k in KeysOf(s) <==> exists i :: 0 <= i < |SortDesc(t, rank)| && SortDesc(t, rank)[i].key == k
    {
      MeansPresent(s, rank, k);
    }
    MeansRows(s, rank);
  }

  /** A key is present among the samples exactly when some row's key function yields it. */
  lemma SamplesKeys<K(!new)>(rows: seq<Record>, key: Record -> Option<K>, k: K)
    ensures k in KeysOf(Samples(rows, key)) <==> exists j :: 0 <= j < |rows| && key(rows[j]) == Some(k)
  {
    var s := Samples(rows, key);
    KeysOfCount(s, k);
    if exists j :: 0 <= j < |rows| && key(rows[j]) == Some(k) {
      var j :| 0 <= j < |rows| && key(rows[j]) == Some(k);
      assert s[j].key == Some(k);
    }
  }

  /** A sorted mean table has a row for `k` exactly when some row's key function yields `k`. */
  lemma MeansCover<K(!new)>(rows: seq<Record>, key: Record -> Option<K>, rank: Mean<K> -> real, k: K)
    ensures (exists i :: 0 <= i < |SortDesc(MeanTable(Samples(rows, key)), rank)| &&
               SortDesc(MeanTable(Samples(rows, key)), rank)[i].key == k) <==>
            (exists j :: 0 <= j < |rows| && key(rows[j]) == Some(k))
  {
    SortedMeans(Samples(rows, key), rank);
    SamplesKeys(rows, key, k);
  }

  lemma StateCover(rows: seq<Record>)
    ensures forall k :: (exists i :: 0 <= i < |MeanByState(rows)| && MeanByState(rows)[i].key == k) <==>
      (exists j :: 0 <= j < |rows| && rows[j].uf == Some(k))
  {
    forall k
      ensures (exists i :: 0 <= i < |MeanByState(rows)| && MeanByState(rows)[i].key == k) <==>
        (exists j :: 0 <= j < |rows| && rows[j].uf == Some(k))
    {
      var r := SortDesc(MeanTable(Samples(rows, UfKey)), MeanValue);
      assert r == MeanByState(rows);
      MeansCover(rows, UfKey, MeanValue, k);
      if exists j :: 0 <= j < |rows| && rows[j].uf == Some(k) {
        var j :| 0 <= j < |rows| && rows[j].uf == Some(k);
        assert UfKey(rows[j]) == Some(k);
        var i :| 0 <= i < |r| && r[i].key == k;
        assert MeanByState(rows)[i].key == k;
      }
      if exists i :: 0 <= i < |MeanByState(rows)| && MeanByState(rows)[i].key == k {
        var i :| 0 <= i < |MeanByState(rows)| && MeanByState(rows)[i].key == k;
        assert r[i].key == k;
        var j :| 0 <= j < |rows| && UfKey(rows[j]) == Some(k);
        assert rows[j].uf == Some(k);
      }
    }
  }

  /**
   * The state chart: highest mean first, a permutation of the per-state means, one bar per state
   * some row carries and no other, each the mean of that state's prices; no rows, no bars.
   */
  lemma MeanByStateCorrect(rows: seq<Record>)
    ensures forall i, j :: 0 <= i < j < |MeanByState(rows)| ==> MeanByState(rows)[i].value >= MeanByState(rows)[j].value
    ensures multiset(MeanByState(rows)) == multiset(MeanTable(Samples(rows, UfKey)))
    ensures DistinctBy(MeanByState(rows), MeanKey)
    ensures forall k :: (exists i :: 0 <= i < |MeanByState(rows)| && MeanByState(rows)[i].key == k) <==>
      (exists j :: 0 <= j < |rows| && rows[j].uf == Some(k))
    ensures forall i :: 0 <= i < |MeanByState(rows)| ==> IsGroupMean(Samples(rows, UfKey), MeanByState(rows)[i])
    ensures rows == [] ==> MeanByState(rows) == []
  {
    SortedMeans(Samples(rows, UfKey), MeanValue);
    StateCover(rows);
  }

  /**
   * The line chart: earliest day first, one point per (day, region) pair with both parts present,
   * each the mean of that pair's prices.
   */
  lemma MeanByDateRegionCorrect(rows: seq<Record>)
    ensures forall i, j :: 0 <= i < j < |MeanByDateRegion(rows)| ==>
      MeanByDateRegion(rows)[i].key.0 <= MeanByDateRegion(rows)[j].key.0
    ensures multiset(MeanByDateRegion(rows)) == multiset(MeanTable(Samples(rows, DateRegionKey)))
    ensures DistinctBy(MeanByDateRegion(rows), MeanKey)
    ensures forall d, g :: (exists i :: 0 <= i < |MeanByDateRegion(rows)| && MeanByDateRegion(rows)[i].key == (d, g)) <==>
      (exists j :: 0 <= j < |rows| && rows[j].dataColeta == Some(d) && rows[j].regiao == Some(g))
    ensures forall i :: 0 <= i < |MeanByDateRegion(rows)| ==>
      IsGroupMean(Samples(rows, DateRegionKey), MeanByDateRegion(rows)[i])
  {
    var r := MeanByDateRegion(rows);
    SortedMeans(Samples(rows, DateRegionKey), EarlierFirst);
    forall i, j | 0 <= i < j < |r|
      ensures r[i].key.0 <= r[j].key.0
    {
      assert EarlierFirst(r[i]) >= EarlierFirst(r[j]);
    }
    forall d, g
      ensures (exists i :: 0 <= i < |r| && r[i].key == (d, g)) <==>
        (exists j :: 0 <= j < |rows| && rows[j].dataColeta == Some(d) && rows[j].regiao == Some(g))
    {
      SamplesKeys(rows, DateRegionKey, (d, g));
      if exists j :: 0 <= j < |rows| && rows[j].dataColeta == Some(d) && rows[j].regiao == Some(g) {
        var j :| 0 <= j < |rows| && rows[j].dataColeta == Some(d) && rows[j].regiao == Some(g);
        assert DateRegionKey(rows[j]) == Some((d, g));
      }
    }
  }

  lemma BrandCover(rows: seq<Record>)
    ensures forall k :: (exists i :: 0 <= i < |MeanByBrand(rows)| && MeanByBrand(rows)[i].key == k) <==>
      (exists j :: 0 <= j < |rows| && rows[j].bandeira == Some(k))
  {
    forall k
      ensures (exists i :: 0 <= i < |MeanByBrand(rows)| && MeanByBrand(rows)[i].key == k) <==>
        (exists j :: 0 <= j < |rows| && rows[j].bandeira == Some(k))
    {
      var r := SortDesc(MeanTable(Samples(rows, BrandKey)), MeanValue);
      assert r == MeanByBrand(rows);
      MeansCover(rows, BrandKey, MeanValue, k);
      if exists j :: 0 <= j < |rows| && rows[j].bandeira == Some(k) {
        var j :| 0 <= j < |rows| && rows[j].bandeira == Some(k);
        assert BrandKey(rows[j]) == Some(k);
        var i :| 0 <= i < |r| && r[i].key == k;
        assert MeanByBrand(rows)[i].key == k;
      }
      if exists i :: 0 <= i < |MeanByBrand(rows)| && MeanByBrand(rows)[i].key == k {
        var i :| 0 <= i < |MeanByBrand(rows)| && MeanByBrand(rows)[i].key == k;
        assert r[i].key == k;
        var j :| 0 <= j < |rows| && BrandKey(rows[j]) == Some(k);
        assert rows[j].bandeira == Some(k);
      }
    }
  }

  /**
   * The brand bar chart: highest mean first, a permutation of the per-brand means, one bar per brand
   * some row carries and no other, each that brand's mean.
   */
  lemma MeanByBrandCorrect(rows: seq<Record>)
    ensures forall i, j :: 0 <= i < j < |MeanByBrand(rows)| ==> MeanByBrand(rows)[i].value >= MeanByBrand(rows)[j].value
    ensures multiset(MeanByBrand(rows)) == multiset(MeanTable(Samples(rows, BrandKey)))
    ensures DistinctBy(MeanByBrand(rows), MeanKey)
    ensures forall k :: (exists i :: 0 <= i < |MeanByBrand(rows)| && MeanByBrand(rows)[i].key == k) <==>
      (exists j :: 0 <= j < |rows| && rows[j].bandeira == Some(k))
    ensures forall i :: 0 <= i < |MeanByBrand(rows)| ==> IsGroupMean(Samples(rows, BrandKey), MeanByBrand(rows)[i])
  {
    SortedMeans(Samples(rows, BrandKey), MeanValue);
    BrandCover(rows);
  }

  /** Weighting each brand's mean by its row count gives back the sum of the prices of the rows with a brand. */
  lemma MeanByBrandWeighted(rows: seq<Record>)
    ensures Sum(MeanByBrand(rows), WeightedBy(Samples(rows, BrandKey))) == KnownTotal(Samples(rows, BrandKey))
  {
    var s := Samples(rows, BrandKey);
    MeanTableWeighted(s);
    SortDescSum(MeanTable(s), MeanValue, WeightedBy(s));
  }

  /** A sorted count table has a row for exactly the keys present. */
  lemma TalliesPresent<K(!new)>(s: seq<Sample<K>>, k: K)
    ensures k in KeysOf(s) <==>
      exists i :: 0 <= i < |SortDesc(TallyTable(s), TallyCount)| && SortDesc(TallyTable(s), TallyCount)[i].key == k
  {
    var t := TallyTable(s);
    var r := SortDesc(t, TallyCount);
    TallyTableCorrect(s);
    SortDescMembers(t, TallyCount);
    if k in KeysOf(s) {
      var j :| 0 <= j < |t| && t[j].key == k;
      assert t[j] in r;
    }
    if exists i :: 0 <= i < |r| && r[i].key == k {
      var i :| 0 <= i < |r| && r[i].key == k;
      assert r[i] in t;
    }
  }

  /** Every row of a sorted count table counts its key's samples, at least one. */
  lemma TalliesRows<K(!new)>(s: seq<Sample<K>>)
    ensures forall i :: 0 <= i < |SortDesc(TallyTable(s), TallyCount)| ==>
      SortDesc(TallyTable(s), TallyCount)[i].count >= 1 &&
      SortDesc(TallyTable(s), TallyCount)[i].count == CountFor(s, SortDesc(TallyTable(s), TallyCount)[i].key)
  {
    var t := TallyTable(s);
    var r := SortDesc(t, TallyCount);
    TallyTableCorrect(s);
    SortDescMembers(t, TallyCount);
    forall i | 0 <= i < |r|
      ensures r[i].count >= 1 && r[i].count == CountFor(s, r[i].key)
    {
      SortDescKeeps(t, TallyCount, r[i]);
    }
  }

  /** A sorted count table: ordered by count, a permutation of the groups' counts, one row per present key. */
  lemma SortedTallies<K(!new)>(s: seq<Sample<K>>)
    ensures Descending(SortDesc(TallyTable(s), TallyCount), TallyCount)
    ensures multiset(SortDesc(TallyTable(s), TallyCount)) == multiset(TallyTable(s))
    ensures DistinctBy(SortDesc(TallyTable(s), TallyCount), TallyKey)
    ensures forall k :: k in KeysOf(s) <==>
      exists i :: 0 <= i < |SortDesc(TallyTable(s), TallyCount)| && SortDesc(TallyTable(s), TallyCount)[i].key == k
    ensures forall i :: 0 <= i < |SortDesc(TallyTable(s), TallyCount)| ==>
      SortDesc(TallyTable(s), TallyCount)[i].count >= 1 &&
      SortDesc(TallyTable(s), TallyCount)[i].count == CountFor(s, SortDesc(TallyTable(s), TallyCount)[i].key)
    ensures Sum(SortDesc(TallyTable(s), TallyCount), TallyCount) == KnownCount(s) as real
  {
    var t := TallyTable(s);
    TallyTableCorrect(s);
    SortDescCorrect(t, TallyCount);
    SortDescDistinct(t, TallyCount, TallyKey);
    SortDescSum(t, TallyCount, TallyCount);
    forall k
      ensures k in KeysOf(s) <==> exists i :: 0 <= i < |SortDesc(t, TallyCount)| && SortDesc(t, TallyCount)[i].key == k
    {
      TalliesPresent(s, k);
    }
    TalliesRows(s);
  }

  /**
   * The pie chart: largest count first, one slice per brand some row carries, each counting that
   * brand's rows, at least one; together the slices count every row with a brand.
   */
  lemma BrandCountsCorrect(rows: seq<Record>)
    ensures forall i, j :: 0 <= i < j < |BrandCounts(rows)| ==> BrandCounts(rows)[i].count >= BrandCounts(rows)[j].count
    ensures multiset(BrandCounts(rows)) == multiset(TallyTable(Samples(rows, BrandKey)))
    ensures DistinctBy(BrandCounts(rows), TallyKey)
    ensures forall k :: (exists i :: 0 <= i < |BrandCounts(rows)| && BrandCounts(rows)[i].key == k) <==>
      (exists j :: 0 <= j < |rows| && rows[j].bandeira == Some(k))
    ensures forall i :: 0 <= i < |BrandCounts(rows)| ==>
      BrandCounts(rows)[i].count >= 1 && BrandCounts(rows)[i].count == CountFor(Samples(rows, BrandKey), BrandCounts(rows)[i].key)
    ensures Sum(BrandCounts(rows), TallyCount) == KnownCount(Samples(rows, BrandKey)) as real
  {
    var r := BrandCounts(rows);
    SortedTallies(Samples(rows, BrandKey));
    forall i, j | 0 <= i < j < |r|
      ensures r[i].count >= r[j].count
    {
      assert TallyCount(r[i]) >= TallyCount(r[j]);
    }
    forall k
      ensures (exists i :: 0 <= i < |r| && r[i].key == k) <==> (exists j :: 0 <= j < |rows| && rows[j].bandeira == Some(k))
    {
      SamplesKeys(rows, BrandKey, k);
      if exists j :: 0 <= j < |rows| && rows[j].bandeira == Some(k) {
        var j :| 0 <= j < |rows| && rows[j].bandeira == Some(k);
        assert BrandKey(rows[j]) == Some(k);
      }
    }
  }

  /** When every row has a brand, as after the loader's fill, the slices count every row and the weighted bars sum every price. */
  lemma BrandsComplete(rows: seq<Record>)
    requires forall i :: 0 <= i < |rows| ==> rows[i].bandeira.Some?
    ensures Sum(BrandCounts(rows), TallyCount) == |rows| as real
    ensures Sum(MeanByBrand(rows), WeightedBy(Samples(rows, BrandKey))) == Total(Samples(rows, BrandKey))
  {
    var s := Samples(rows, BrandKey);
    assert forall i :: 0 <= i < |s| ==> s[i].key.Some?;
    KnownAll(s);
    BrandCountsCorrect(rows);
    MeanByBrandWeighted(rows);
  }

  /** The histogram and the box plot get one point per selected row, with that row's price and brand. */
  lemma ChartInputs(df: seq<Record>, sel: Selection)
    ensures |AtualizarGraficos(df, sel).histograma| == |Filter(df, sel)|
    ensures |AtualizarGraficos(df, sel).box| == |Filter(df, sel)|
    ensures forall i :: 0 <= i < |Filter(df, sel)| ==>
      AtualizarGraficos(df, sel).histograma[i] == Filter(df, sel)[i].valorVenda &&
      AtualizarGraficos(df, sel).box[i] == (Filter(df, sel)[i].bandeira, Filter(df, sel)[i].valorVenda)
    ensures forall v :: v in AtualizarGraficos(df, sel).histograma <==>
      exists x :: x in Filter(df, sel) && x.valorVenda == v
    ensures forall b, v :: (b, v) in AtualizarGraficos(df, sel).box <==>
      exists x :: x in Filter(df, sel) && x.bandeira == b && x.valorVenda == v
  {
    var f := Filter(df, sel);
    var h := AtualizarGraficos(df, sel).histograma;
    var bx := AtualizarGraficos(df, sel).box;
    forall v
      ensures v in h <==> exists x :: x in f && x.valorVenda == v
    {
      if v in h {
        var i :| 0 <= i < |h| && h[i] == v;
        assert f[i] in f;
      }
      if exists x :: x in f && x.valorVenda == v {
        var x :| x in f && x.valorVenda == v;
        var i :| 0 <= i < |f| && f[i] == x;
        assert h[i] == v;
      }
    }
    forall b, v
      ensures (b, v) in bx <==> exists x :: x in f && x.bandeira == b && x.valorVenda == v
    {
      if (b, v) in bx {
        var i :| 0 <= i < |bx| && bx[i] == (b, v);
        assert f[i] in f;
      }
      if exists x :: x in f && x.bandeira == b && x.valorVenda == v {
        var x :| x in f && x.bandeira == b && x.valorVenda == v;
        var i :| 0 <= i < |f| && f[i] == x;
        assert bx[i] == (b, v);
      }
    }
  }
}
