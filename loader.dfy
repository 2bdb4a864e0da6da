/**
 * `load_data` (dashboard/data/loader.py) and the equivalent module-level preparation of
 * dashboard/dashboard.py: a table read from the survey file is relabelled, its collection dates and
 * sale prices converted, and its absent brand and region cells filled, updating one frame in place.
 */
module Loader {
  import opened Wrappers
  import opened Strings
  import opened Dates
  import opened Normalise
  import opened Frames
  import opened Records

  /** What `read_csv` produced: column labels and, per column, its `height` cells (`None` for NaN). */
  datatype Csv = Csv(header: seq<string>, cells: seq<seq<Option<string>>>, height: nat)

  predicate Rectangular(csv: Csv)
  {
    |csv.header| == |csv.cells| && forall j :: 0 <= j < |csv.cells| ==> |csv.cells[j]| == csv.height
  }

  /**
   * The two copies of the preparation: `Package` is `load_data`, which cleans the labels and coerces
   * unreadable dates to NaT; `Script` is dashboard.py, which does neither, so an unreadable date
   * aborts it.
   */
  datatype Variant = Package | Script

  /** `KeyError` for a missing column, `ValueError` from `to_datetime` or from `astype(float)`. */
  datatype LoadError = MissingColumn(name: string) | BadDate(text: string) | BadPrice(text: string)

  // ---------------------------------------------------------------- labels

  /** `df.columns.str.replace("﻿", "").str.strip()`. */
  function Cleaned(h: seq<string>): (r: seq<string>)
    ensures |r| == |h|
  {
    if h == [] then [] else [CleanHeader(h[0])] + Cleaned(h[1..])
  }

  /** The labels after `df.rename(columns=Renames)`. */
  function Renamed(h: seq<string>): (r: seq<string>)
    ensures |r| == |h|
  {
    if h == [] then [] else [RenameColumn(h[0])] + Renamed(h[1..])
  }

  /** Every cleaned label is free of the byte-order mark and of outer whitespace, and cleaning is idempotent. */
  lemma CleanedLabels(h: seq<string>)
    ensures forall n :: n in Cleaned(h) ==> ByteOrderMark !in n && Trim(n) == n
    ensures Cleaned(Cleaned(h)) == Cleaned(h)
  {
    CleanedAt(h);
    CleanedAt(Cleaned(h));
    forall i | 0 <= i < |h|
      ensures ByteOrderMark !in Cleaned(h)[i] && Trim(Cleaned(h)[i]) == Cleaned(h)[i]
      ensures Cleaned(Cleaned(h))[i] == Cleaned(h)[i]
    {
      CleanHeaderClean(h[i]);
    }
  }

  /** Each label is cleaned on its own. */
  lemma {:induction false} CleanedAt(h: seq<string>)
    ensures forall i :: 0 <= i < |h| ==> Cleaned(h)[i] == CleanHeader(h[i])
  {
    if h != [] {
      CleanedAt(h[1..]);
    }
  }

  /** Renaming the labels a second time changes nothing. */
  lemma {:induction false} RenamedTwice(h: seq<string>)
    ensures Renamed(Renamed(h)) == Renamed(h)
  {
    if h != [] {
      RenamedTwice(h[1..]);
      RenameExact(h[0]);
    }
  }

  function Labels(h: seq<string>, v: Variant): seq<string>
  {
    Renamed(if v == Package then Cleaned(h) else h)
  }

  /** `df[name]`: the first column with that label, or the `KeyError`. */
  function Locate(names: seq<string>, name: string): (r: Result<nat, LoadError>)
    ensures r.Success? ==> r.value < |names| && names[r.value] == name && Position(names, name) == Some(r.value)
    ensures r.Failure? <==> name !in names
    ensures r.Failure? ==> r.error == MissingColumn(name)
  {
    match Position(names, name)
    case Some(j) => Success(j)
    case None => Failure(MissingColumn(name))
  }

  // ---------------------------------------------------------------- dates

  /** The day number `to_datetime(..., format="%d/%m/%Y", errors="coerce")` gives one cell. */
  function DateOf(c: Option<string>): Option<int>
  {
    match c
    case None => None
    case Some(s) =>
      match ParseDate(s)
      case Parsed(d) => Some(Key(d))
      case _ => None
  }

  /** A cell that `to_datetime` without `errors="coerce"` rejects. */
  predicate Unreadable(c: Option<string>)
  {
    c.Some? && ParseDate(c.value).Malformed?
  }

  /** The date column conversion: coerced for `Package`, strict for `Script`. */
  function ReadDates(cells: seq<Option<string>>, v: Variant): (r: Result<seq<Option<int>>, LoadError>)
    ensures r.Success? ==> |r.value| == |cells| && forall i :: 0 <= i < |cells| ==> r.value[i] == DateOf(cells[i])
    ensures r.Failure? ==> v == Script && r.error.BadDate?
  {
    if cells == [] then Success([])
    else if v == Script && Unreadable(cells[0]) then Failure(BadDate(cells[0].value))
    else
      var rest :- ReadDates(cells[1..], v);
      Success([DateOf(cells[0])] + rest)
  }

  /** The strict conversion fails exactly when some cell is unreadable; the coercing one never fails. */
  lemma {:induction false} ReadDatesFails(cells: seq<Option<string>>, v: Variant)
    ensures ReadDates(cells, v).Failure? <==> v == Script && exists i :: 0 <= i < |cells| && Unreadable(cells[i])
  {
    if cells != [] {
      ReadDatesFails(cells[1..], v);
      if v == Script && !Unreadable(cells[0]) && ReadDates(cells, v).Failure? {
        var i :| 0 <= i < |cells[1..]| && Unreadable(cells[1..][i]);
        assert Unreadable(cells[i + 1]);
      }
      if v == Script && (exists i :: 0 <= i < |cells| && Unreadable(cells[i])) && !Unreadable(cells[0]) {
        var i :| 0 <= i < |cells| && Unreadable(cells[i]);
        assert Unreadable(cells[1..][i - 1]);
      }
    }
  }

  /** On readable cells the strict and the coercing conversion agree. */
  lemma {:induction false} ReadDatesSame(cells: seq<Option<string>>)
    requires forall i :: 0 <= i < |cells| ==> !Unreadable(cells[i])
    ensures ReadDates(cells, Script) == ReadDates(cells, Package)
  {
    if cells != [] {
      assert forall i :: 0 <= i < |cells[1..]| ==> cells[1..][i] == cells[i + 1];
      ReadDatesSame(cells[1..]);
    }
  }

  // ---------------------------------------------------------------- prices

  /** `astype(str)` of one cell: NaN is spelt `"nan"`. */
  function PriceText(c: Option<string>): string
  {
    match c
    case None => "nan"
    case Some(s) => s
  }

  /**
   * One cell of `valor_venda` through `astype(str)`, the rewrite and `astype(float)`; a failure quotes
   * the rewritten text, which is what `astype(float)` is given.
   */
  function PriceOf(c: Option<string>): (r: Result<real, LoadError>)
    ensures r.Failure? ==> r.error.BadPrice?
  {
    match ParseDecimal(NormalisePrice(PriceText(c)))
    case Some(x) => Success(x)
    case None => Failure(BadPrice(NormalisePrice(PriceText(c))))
  }

  /**
   * Example prices in the file's decimal-comma format read as 3500.50 and 900.25; an empty cell,
   * spelt `"nan"`, is not a decimal.
   */
  lemma PriceOfExamples()
    ensures PriceOf(Some("3.500,50")) == Success(3500.50)
    ensures PriceOf(Some("900,25")) == Success(900.25)
    ensures PriceOf(None) == Failure(BadPrice("nan"))
  {
    PriceExamples();
    NanRejected();
  }

  /** The price column conversion, which fails at the first cell that does not read as a number. */
  function ReadPrices(cells: seq<Option<string>>): (r: Result<seq<real>, LoadError>)
    ensures r.Success? ==> |r.value| == |cells|
    ensures r.Success? ==> forall i :: 0 <= i < |cells| ==> PriceOf(cells[i]) == Success(r.value[i])
    ensures r.Failure? ==> r.error.BadPrice?
  {
    if cells == [] then Success([])
    else
      var x :- PriceOf(cells[0]);
      var rest :- ReadPrices(cells[1..]);
      Success([x] + rest)
  }

  /** The conversion succeeds exactly when every cell reads as a number. */
  lemma {:induction false} ReadPricesSucceeds(cells: seq<Option<string>>)
    ensures ReadPrices(cells).Success? <==> forall i :: 0 <= i < |cells| ==> PriceOf(cells[i]).Success?
  {
    if cells != [] {
      ReadPricesSucceeds(cells[1..]);
      if forall i :: 0 <= i < |cells| ==> PriceOf(cells[i]).Success? {
        assert forall i :: 0 <= i < |cells[1..]| ==> cells[1..][i] == cells[i + 1];
      }
      if PriceOf(cells[0]).Success? && ReadPrices(cells[1..]).Success? {
        assert forall i :: 1 <= i < |cells| ==> cells[i] == cells[1..][i - 1];
      }
    }
  }

  // ---------------------------------------------------------------- fill and rows

  /** `fillna("Não informada")` on a text column. */
  function Fill(cells: seq<Option<string>>): (r: seq<Option<string>>)
    ensures |r| == |cells| && forall i :: 0 <= i < |cells| ==> r[i] == FillMissing(cells[i])
  {
    seq(|cells|, i requires 0 <= i < |cells| => FillMissing(cells[i]))
  }

  /** The records the callbacks read, row by row from the five columns they use. */
  function Rows(regiao: seq<Option<string>>, uf: seq<Option<string>>, days: seq<Option<int>>,
                prices: seq<real>, bandeira: seq<Option<string>>): (r: seq<Record>)
    requires |regiao| == |uf| == |days| == |prices| == |bandeira|
    ensures |r| == |days|
    ensures forall i :: 0 <= i < |r| ==>
      r[i] == Record(regiao[i], uf[i], days[i], prices[i], bandeira[i])
  {
    seq(|days|, i requires 0 <= i < |days| => Record(regiao[i], uf[i], days[i], prices[i], bandeira[i]))
  }

  // ---------------------------------------------------------------- the whole load

  /**
   * The preparation as one function of the table read: the steps in the order the source runs
   * them, each failing with the error the source would raise first (see `WithDates`, `WithPrices`).
   */
  function Load(csv: Csv, v: Variant): (r: Result<seq<Record>, LoadError>)
    requires Rectangular(csv)
    ensures r.Failure? && r.error.BadDate? ==> v == Script
  {
    WithLabels(csv, Labels(csv.header, v), v)
  }

  /** The steps after relabelling: the dates, then the rest. */
  function WithLabels(csv: Csv, names: seq<string>, v: Variant): (r: Result<seq<Record>, LoadError>)
    requires Rectangular(csv) && |names| == |csv.cells|
    ensures r.Failure? && r.error.BadDate? ==> v == Script
  {
    var d :- Locate(names, "data_coleta");
    var days :- ReadDates(csv.cells[d], v);
    WithDates(csv, names, days)
  }

  /** The steps after the dates are converted: the prices, then the fills. */
  function WithDates(csv: Csv, names: seq<string>, days: seq<Option<int>>): (r: Result<seq<Record>, LoadError>)
    requires Rectangular(csv) && |names| == |csv.cells| && |days| == csv.height
    ensures r.Failure? ==> !r.error.BadDate?
  {
    var p :- Locate(names, "valor_venda");
    var prices :- ReadPrices(csv.cells[p]);
    WithPrices(csv, names, days, prices)
  }

  /** The fills of brand and region, and the five columns gathered into records. */
  function WithPrices(csv: Csv, names: seq<string>, days: seq<Option<int>>, prices: seq<real>): (r: Result<seq<Record>, LoadError>)
    requires Rectangular(csv) && |names| == |csv.cells| && |days| == |prices| == csv.height
    ensures r.Failure? ==> r.error.MissingColumn?
  {
    var b :- Locate(names, "bandeira");
    var g :- Locate(names, "regiao");
    var u :- Locate(names, "uf");
    Success(Rows(Fill(csv.cells[g]), csv.cells[u], days, prices, Fill(csv.cells[b])))
  }

  /** The frame's state between two steps: the listed columns rewritten, every other one as read. */
  ghost predicate Holds(df: Frame, csv: Csv, names: seq<string>, done: map<nat, Column>)
    reads df
  {
    df.Valid() && df.names == names && |names| == |csv.cells| && df.height == csv.height &&
    Matches(df.columns, csv, names, done)
  }

  /** The listed columns are the rewritten ones and every other column is as read. */
  ghost predicate Matches(columns: seq<Column>, csv: Csv, names: seq<string>, done: map<nat, Column>)
  {
    |columns| == |names| == |csv.cells| &&
    (forall j :: j in done ==> j < |names| && columns[j] == done[j]) &&
    (forall j :: 0 <= j < |names| && j !in done ==> columns[j] == Text(csv.cells[j]))
  }

  /** Overwriting one column records it among the rewritten ones. */
  lemma MatchesAssign(columns: seq<Column>, csv: Csv, names: seq<string>, done: map<nat, Column>, j: nat, c: Column)
    requires Matches(columns, csv, names, done) && j < |names|
    ensures Matches(columns[j := c], csv, names, done[j := c])
  {
  }

  /** The rewritten columns of the prepared frame: dates and prices converted, brand and region filled. */
  ghost function Prepared(csv: Csv, names: seq<string>, d: nat, days: seq<Option<int>>, p: nat, prices: seq<real>)
    : map<nat, Column>
    requires |names| == |csv.cells| && "bandeira" in names && "regiao" in names
  {
    var b := Position(names, "bandeira").value;
    var g := Position(names, "regiao").value;
    map[d := Stamps(days), p := Floats(prices), b := Text(Fill(csv.cells[b])), g := Text(Fill(csv.cells[g]))]
  }

  /** The preparation step by step on one frame, as the source overwrites `df`'s labels and columns. */
  method LoadData(csv: Csv, v: Variant) returns (r: Result<seq<Record>, LoadError>)
    requires Rectangular(csv)
    ensures r == Load(csv, v)
  {
    var df := new Frame(csv.header, csv.cells, csv.height);
    if v == Package {
      df.Relabel(Cleaned(df.names));
    }
    df.Relabel(Renamed(df.names));
    assert df.names == Labels(csv.header, v);
    r := ConvertDates(df, csv, df.names, v);
  }

  method ConvertDates(df: Frame, csv: Csv, names: seq<string>, v: Variant) returns (r: Result<seq<Record>, LoadError>)
    modifies df
    requires Rectangular(csv)
    requires Holds(df, csv, names, map[])
    ensures r == WithLabels(csv, names, v)
    ensures r.Success? ==>
      var d := Position(names, "data_coleta").value;
      var p := Position(names, "valor_venda").value;
      ReadDates(csv.cells[d], v).Success? && ReadPrices(csv.cells[p]).Success? &&
      "bandeira" in names && "regiao" in names &&
      Holds(df, csv, names, Prepared(csv, names, d, ReadDates(csv.cells[d], v).value, p, ReadPrices(csv.cells[p]).value))
  {
    var d := Locate(names, "data_coleta");
    if d.Failure? {
      return Failure(d.error);
    }
    var days := ReadDates(df.columns[d.value].cells, v);
    if days.Failure? {
      return Failure(days.error);
    }
    df.Assign(d.value, Stamps(days.value));
    r := ConvertPrices(df, csv, names, d.value, days.value);
  }

  method ConvertPrices(df: Frame, csv: Csv, names: seq<string>, d: nat, days: seq<Option<int>>)
      returns (r: Result<seq<Record>, LoadError>)
    modifies df
    requires Rectangular(csv) && |days| == csv.height
    requires d < |names| && names[d] == "data_coleta"
    requires Holds(df, csv, names, map[d := Stamps(days)])
    ensures r == WithDates(csv, names, days)
    ensures r.Success? ==>
      var p := Position(names, "valor_venda").value;
      ReadPrices(csv.cells[p]).Success? && "bandeira" in names && "regiao" in names &&
      Holds(df, csv, names, Prepared(csv, names, d, days, p, ReadPrices(csv.cells[p]).value))
  {
    var p := Locate(names, "valor_venda");
    if p.Failure? {
      return Failure(p.error);
    }
    var prices := ReadPrices(df.columns[p.value].cells);
    if prices.Failure? {
      return Failure(prices.error);
    }
    df.Assign(p.value, Floats(prices.value));
    r := FillText(df, csv, names, d, days, p.value, prices.value);
  }

  method FillText(df: Frame, csv: Csv, names: seq<string>, d: nat, days: seq<Option<int>>, p: nat, prices: seq<real>)
      returns (r: Result<seq<Record>, LoadError>)
    modifies df
    requires Rectangular(csv) && |days| == |prices| == csv.height
    requires d < |names| && names[d] == "data_coleta" && p < |names| && names[p] == "valor_venda"
    requires Holds(df, csv, names, map[d := Stamps(days), p := Floats(prices)])
    ensures r == WithPrices(csv, names, days, prices)
    ensures r.Success? ==>
      "bandeira" in names && "regiao" in names && Holds(df, csv, names, Prepared(csv, names, d, days, p, prices))
  {
    var b := Locate(names, "bandeira");
    if b.Failure? {
      return Failure(b.error);
    }
    ghost var done := map[d := Stamps(days), p := Floats(prices)];
    assert df.columns[b.value] == Text(csv.cells[b.value]);
    MatchesAssign(df.columns, csv, names, done, b.value, Text(Fill(csv.cells[b.value])));
    df.Assign(b.value, Text(Fill(df.columns[b.value].cells)));
    done := done[b.value := Text(Fill(csv.cells[b.value]))];
    var g := Locate(names, "regiao");
    if g.Failure? {
      return Failure(g.error);
    }
    assert df.columns[g.value] == Text(csv.cells[g.value]);
    MatchesAssign(df.columns, csv, names, done, g.value, Text(Fill(csv.cells[g.value])));
    df.Assign(g.value, Text(Fill(df.columns[g.value].cells)));
    done := done[g.value := Text(Fill(csv.cells[g.value]))];
    assert done == Prepared(csv, names, d, days, p, prices);
    r := Collect(df, csv, names, d, days, p, prices);
  }

  /** The records of the prepared frame, which also need its `uf` column. */
  method Collect(df: Frame, csv: Csv, names: seq<string>, d: nat, days: seq<Option<int>>, p: nat, prices: seq<real>)
      returns (r: Result<seq<Record>, LoadError>)
    requires Rectangular(csv) && |days| == |prices| == csv.height
    requires d < |names| && names[d] == "data_coleta" && p < |names| && names[p] == "valor_venda"
    requires |names| == |csv.cells| && "bandeira" in names && "regiao" in names
    requires Holds(df, csv, names, Prepared(csv, names, d, days, p, prices))
    ensures r == WithPrices(csv, names, days, prices)
  {
    var b := Locate(names, "bandeira");
    var g := Locate(names, "regiao");
    var u := Locate(names, "uf");
    if u.Failure? {
      return Failure(u.error);
    }
    assert df.columns[u.value] == Text(csv.cells[u.value]);
    r := Success(Rows(df.columns[g.value].cells, df.columns[u.value].cells, df.columns[d].days,
                      df.columns[p].values, df.columns[b.value].cells));
  }

  // ---------------------------------------------------------------- what the load guarantees

  /** The cells of the first column labelled `name`. */
  function Cells(csv: Csv, names: seq<string>, name: string): (r: seq<Option<string>>)
    requires Rectangular(csv) && |names| == |csv.cells| && name in names
    ensures |r| == csv.height
  {
    csv.cells[Position(names, name).value]
  }

  /** The cells read under the label the preparation gives `name`. */
  function Raw(csv: Csv, v: Variant, name: string): (r: seq<Option<string>>)
    requires Rectangular(csv) && name in Labels(csv.header, v)
    ensures |r| == csv.height
  {
    Cells(csv, Labels(csv.header, v), name)
  }

  predicate Present(names: seq<string>)
  {
    "data_coleta" in names && "valor_venda" in names && "bandeira" in names && "regiao" in names && "uf" in names
  }

  predicate HasColumns(csv: Csv, v: Variant)
  {
    Present(Labels(csv.header, v))
  }

  lemma WithLabelsSucceeds(csv: Csv, names: seq<string>, v: Variant)
    requires Rectangular(csv) && |names| == |csv.cells|
    ensures WithLabels(csv, names, v).Success? <==>
      Present(names) &&
      (forall i :: 0 <= i < csv.height ==> PriceOf(Cells(csv, names, "valor_venda")[i]).Success?) &&
      (v == Script ==> forall i :: 0 <= i < csv.height ==> !Unreadable(Cells(csv, names, "data_coleta")[i]))
  {
    if "data_coleta" in names {
      var days := ReadDates(Cells(csv, names, "data_coleta"), v);
      ReadDatesFails(Cells(csv, names, "data_coleta"), v);
      if days.Success? && "valor_venda" in names {
        ReadPricesSucceeds(Cells(csv, names, "valor_venda"));
        assert WithLabels(csv, names, v) == WithDates(csv, names, days.value);
      }
    }
  }

  /**
   * The preparation succeeds exactly when the five columns exist under their new labels, every
   * price reads as a number and, for the strict copy, every date is readable.
   */
  lemma LoadSucceeds(csv: Csv, v: Variant)
    requires Rectangular(csv)
    ensures Load(csv, v).Success? <==>
      HasColumns(csv, v) &&
      (forall i :: 0 <= i < csv.height ==> PriceOf(Raw(csv, v, "valor_venda")[i]).Success?) &&
      (v == Script ==> forall i :: 0 <= i < csv.height ==> !Unreadable(Raw(csv, v, "data_coleta")[i]))
  {
    var names := Labels(csv.header, v);
    WithLabelsSucceeds(csv, names, v);
    assert Load(csv, v) == WithLabels(csv, names, v);
    assert HasColumns(csv, v) == Present(names);
    assert HasColumns(csv, v) ==> Raw(csv, v, "valor_venda") == Cells(csv, names, "valor_venda");
    assert HasColumns(csv, v) ==> Raw(csv, v, "data_coleta") == Cells(csv, names, "data_coleta");
  }

  /** A successful preparation is the five columns, converted and filled, gathered row by row. */
  lemma LoadValue(csv: Csv, v: Variant)
    requires Rectangular(csv) && Load(csv, v).Success?
    ensures HasColumns(csv, v)
    ensures ReadDates(Raw(csv, v, "data_coleta"), v).Success?
    ensures ReadPrices(Raw(csv, v, "valor_venda")).Success?
    ensures Load(csv, v).value ==
      Rows(Fill(Raw(csv, v, "regiao")), Raw(csv, v, "uf"), ReadDates(Raw(csv, v, "data_coleta"), v).value,
           ReadPrices(Raw(csv, v, "valor_venda")).value, Fill(Raw(csv, v, "bandeira")))
  {
    var names := Labels(csv.header, v);
    assert WithLabels(csv, names, v).Success?;
    var d := Locate(names, "data_coleta").value;
    var days := ReadDates(csv.cells[d], v).value;
    assert WithDates(csv, names, days).Success?;
    var p := Locate(names, "valor_venda").value;
    var prices := ReadPrices(csv.cells[p]).value;
    assert WithPrices(csv, names, days, prices).Success?;
  }

  /**
   * Each record is its row: the brand and region are never absent, a present one is kept and an
   * absent one becomes "Não informada"; the date is the coerced reading of the date cell, the price
   * the reading of the rewritten price text and the state the cell as read.
   */
  lemma LoadRecords(csv: Csv, v: Variant)
    requires Rectangular(csv) && Load(csv, v).Success?
    ensures HasColumns(csv, v)
    ensures |Load(csv, v).value| == csv.height
    ensures forall i :: 0 <= i < csv.height ==>
      var r := Load(csv, v).value[i];
      var regiao := Raw(csv, v, "regiao")[i];
      var bandeira := Raw(csv, v, "bandeira")[i];
      r.regiao.Some? && r.bandeira.Some? &&
      (regiao.Some? ==> r.regiao == regiao) && (regiao.None? ==> r.regiao == Some(NotInformed)) &&
      (bandeira.Some? ==> r.bandeira == bandeira) && (bandeira.None? ==> r.bandeira == Some(NotInformed)) &&
      r.uf == Raw(csv, v, "uf")[i] &&
      r.dataColeta == DateOf(Raw(csv, v, "data_coleta")[i]) &&
      PriceOf(Raw(csv, v, "valor_venda")[i]) == Success(r.valorVenda)
  {
    LoadValue(csv, v);
  }

  /** Without `errors="coerce"`, dashboard.py aborts on a date exactly when one is unreadable. */
  lemma ScriptStrict(csv: Csv)
    requires Rectangular(csv)
    ensures (Load(csv, Script).Failure? && Load(csv, Script).error.BadDate?) <==>
      "data_coleta" in Labels(csv.header, Script) &&
      exists i :: 0 <= i < csv.height && Unreadable(Raw(csv, Script, "data_coleta")[i])
  {
    if "data_coleta" in Labels(csv.header, Script) {
      ReadDatesFails(Raw(csv, Script, "data_coleta"), Script);
    }
  }

  lemma WithLabelsAgree(csv: Csv, names: seq<string>)
    requires Rectangular(csv) && |names| == |csv.cells|
    requires "data_coleta" in names ==>
      forall i :: 0 <= i < csv.height ==> !Unreadable(Cells(csv, names, "data_coleta")[i])
    ensures WithLabels(csv, names, Script) == WithLabels(csv, names, Package)
  {
    if "data_coleta" in names {
      ReadDatesSame(Cells(csv, names, "data_coleta"));
    }
  }

  /** On a file with clean labels and readable dates the two copies of the preparation agree. */
  lemma VariantsAgree(csv: Csv)
    requires Rectangular(csv)
    requires Cleaned(csv.header) == csv.header
    requires "data_coleta" in Labels(csv.header, Script) ==>
      forall i :: 0 <= i < csv.height ==> !Unreadable(Raw(csv, Script, "data_coleta")[i])
    ensures Load(csv, Script) == Load(csv, Package)
  {
    var names := Labels(csv.header, Script);
    assert names == Labels(csv.header, Package);
    assert "data_coleta" in names ==> Raw(csv, Script, "data_coleta") == Cells(csv, names, "data_coleta");
    WithLabelsAgree(csv, names);
    assert Load(csv, Script) == WithLabels(csv, names, Script);
    assert Load(csv, Package) == WithLabels(csv, names, Package);
  }

  /** A date in the file's `DD/MM/YYYY` form is read as that day; any other reading is NaT. */
  lemma DateOfFormat(d: Date)
    requires Valid(d)
    ensures DateOf(Some(Format(d))) == Some(Key(d))
  {
    ParseFormat(d);
  }
}
