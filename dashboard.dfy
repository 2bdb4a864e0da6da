/**
 * dashboard.py, the single-file copy of the dashboard: it prepares the table at module level (the
 * `Script` variant of the loader: no header cleaning, strict dates), derives the same filter options,
 * and registers its own `atualizar_graficos`, whose tests are written `is not None` and
 * `len(...) > 0` instead of plain truthiness.
 */
module Dashboard {
  import opened Wrappers
  import opened Records
  import opened Normalise
  import opened Sorting
  import opened Grouping
  import opened Loader
  import opened Callbacks
  import opened Layout

  /** `regioes_sel and len(regioes_sel) > 0`. */
  predicate ScriptChosen(choice: Option<seq<string>>)
  {
    choice.Some? && choice.value != [] && |choice.value| > 0
  }

  function Between(lo: int, hi: int): Record -> bool { (x: Record) => InRange(x, lo, hi) }

  function RegionIn(chosen: seq<string>): Record -> bool { (x: Record) => IsIn(x.regiao, chosen) }

  function BrandIn(chosen: seq<string>): Record -> bool { (x: Record) => IsIn(x.bandeira, chosen) }

  /**
   * Lines 192-201: the script's filter, stage by stage. Its date test `is not None` on both bounds is
   * `DateActive`: with the bounds taken as day keys, a bound is either absent or a day, so truthiness
   * and `is not None` coincide.
   */
  function ScriptFilter(df: seq<Record>, sel: Selection): seq<Record>
  {
    var byDate := if DateActive(sel) then Where(df, Between(sel.inicio.value, sel.fim.value)) else df;
    var byRegion := if ScriptChosen(sel.regioes) then Where(byDate, RegionIn(sel.regioes.value)) else byDate;
    if ScriptChosen(sel.bandeiras) then Where(byRegion, BrandIn(sel.bandeiras.value)) else byRegion
  }

  /** Lines 190-283: the script callback's chart tables. */
  function ScriptGraficos(df: seq<Record>, sel: Selection): Views
  {
    var dados := ScriptFilter(df, sel);
    Views(MeanByState(dados), MeanByDateRegion(dados), MeanByBrand(dados), Prices(dados), BrandPrices(dados),
          BrandCounts(dados))
  }

  /**
   * The two callbacks select the same rows and draw the same tables: `is not None` and truthiness
   * agree on a set or unset date, and `len(...) > 0` adds nothing to a non-empty list.
   */
  lemma ScriptAgrees(df: seq<Record>, sel: Selection)
    ensures ScriptFilter(df, sel) == Filter(df, sel)
    ensures ScriptGraficos(df, sel) == AtualizarGraficos(df, sel)
  {
    var d := ByDate(df, sel);
    var r := ByRegion(d, sel);
    if DateActive(sel) {
      WhereSame(df, Between(sel.inicio.value, sel.fim.value), DateTest(sel));
    }
    if Chosen(sel.regioes) {
      WhereSame(d, RegionIn(sel.regioes.value), RegionTest(sel));
    }
    if Chosen(sel.bandeiras) {
      WhereSame(r, BrandIn(sel.bandeiras.value), BrandTest(sel));
    }
  }

  /**
   * Lines 42 and 274-275: on a table the loader prepared every row has a brand, so the pie's slices
   * count every selected row and the brand bars, weighted by their counts, add up every selected price.
   */
  lemma LoadedBrandTotals(csv: Csv, v: Variant, sel: Selection)
    requires Rectangular(csv) && Load(csv, v).Success?
    ensures Sum(BrandCounts(Filter(Load(csv, v).value, sel)), TallyCount) == |Filter(Load(csv, v).value, sel)| as real
    ensures Sum(MeanByBrand(Filter(Load(csv, v).value, sel)), WeightedBy(Samples(Filter(Load(csv, v).value, sel), BrandKey))) ==
            Total(Samples(Filter(Load(csv, v).value, sel), BrandKey))
  {
    var df := Load(csv, v).value;
    var f := Filter(df, sel);
    LoadRecords(csv, v);
    FilterCorrect(df, sel);
    forall i | 0 <= i < |f|
      ensures f[i].bandeira.Some?
    {
      assert f[i] in df;
    }
    BrandsComplete(f);
  }

  /**
   * Lines 42-46: the fill happens before the options are derived, so an absent region or brand is
   * offered as "Não informada".
   */
  lemma SentinelOffered(csv: Csv, v: Variant)
    requires Rectangular(csv) && HasColumns(csv, v) && Load(csv, v).Success?
    ensures (exists i :: 0 <= i < csv.height && Raw(csv, v, "regiao")[i].None?) ==>
      NotInformed in FilterOptions(Load(csv, v).value).regioes
    ensures (exists i :: 0 <= i < csv.height && Raw(csv, v, "bandeira")[i].None?) ==>
      NotInformed in FilterOptions(Load(csv, v).value).bandeiras
  {
    var df := Load(csv, v).value;
    LoadRecords(csv, v);
    OptionsListed(df);
    if exists i :: 0 <= i < csv.height && Raw(csv, v, "regiao")[i].None? {
      var i :| 0 <= i < csv.height && Raw(csv, v, "regiao")[i].None?;
      assert df[i].regiao == Some(NotInformed);
    }
    if exists i :: 0 <= i < csv.height && Raw(csv, v, "bandeira")[i].None? {
      var i :| 0 <= i < csv.height && Raw(csv, v, "bandeira")[i].None?;
      assert df[i].bandeira == Some(NotInformed);
    }
  }
}
