/**
 * The per-value rewrites `load_data` applies to the survey table: the price text rewrite and its
 * conversion to a number, the header cleaning, the column-rename map and the fill of absent brand and
 * region values.
 */
module Normalise {
  import opened Wrappers
  import opened Strings

  // ---------------------------------------------------------------- prices

  /**
   * `.str.replace(".", "").str.replace(",", ".")`: drop every `.` (read as a thousands separator), then
   * turn every `,` (read as the decimal comma) into `.`.
   */
  function NormalisePrice(s: string): string
  {
    Replace(',', '.', Remove('.', s))
  }

  /**
   * No comma survives, there are as many dots as the input had commas, the input's dots are gone,
   * and turning the dots back into commas gives the input with its dots deleted.
   */
  lemma NormalisePriceShape(s: string)
    ensures ',' !in NormalisePrice(s)
    ensures Count('.', NormalisePrice(s)) == Count(',', s)
    ensures |NormalisePrice(s)| == |s| - Count('.', s)
    ensures Replace('.', ',', NormalisePrice(s)) == Remove('.', s)
  {
    var t := Remove('.', s);
    RemoveGone('.', s);
    RemoveKeeps('.', ',', s);
    ReplaceCounts(',', '.', t);
    assert Count('.', t) == 0 by {
      CountZero('.', t);
    }
    ReplaceBack(',', '.', t);
  }

  /** The rewrite is a fixed point exactly on texts without a comma: an already-dotted `"3500.50"` is changed. */
  lemma NormalisePriceIdempotentIff(s: string)
    ensures NormalisePrice(NormalisePrice(s)) == NormalisePrice(s) <==> ',' !in s
  {
    var n := NormalisePrice(s);
    NormalisePriceShape(s);
    NormalisePriceShape(n);
    CountZero(',', s);
    CountZero('.', n);
    if ',' !in s {
      RemoveAbsent('.', n);
      ReplaceAbsent(',', '.', n);
    } else {
      assert |NormalisePrice(n)| < |n|;
    }
  }

  /** Dropping the only dot of `a.b`. */
  lemma RemoveSeparator(a: string, b: string)
    requires '.' !in a && '.' !in b
    ensures Remove('.', a + "." + b) == a + b
  {
    assert a + "." + b == a + ("." + b);
    RemoveAppend('.', a, "." + b);
    RemoveAppend('.', ".", b);
    RemoveAbsent('.', a);
    RemoveAbsent('.', b);
  }

  /** Turning the only comma of `a,b` into a dot. */
  lemma ReplaceSeparator(a: string, b: string)
    requires ',' !in a && ',' !in b
    ensures Replace(',', '.', a + "," + b) == a + "." + b
  {
    var r := Replace(',', '.', a + "," + b);
    assert forall i :: 0 <= i < |r| ==> r[i] == (a + "." + b)[i];
  }

  /** A price with a thousands dot and a decimal comma, `a.b,c`, becomes `ab.c`. */
  lemma NormaliseGrouped(a: string, b: string, c: string)
    requires '.' !in a && '.' !in b && '.' !in c
    requires ',' !in a && ',' !in b && ',' !in c
    ensures NormalisePrice(a + "." + b + "," + c) == a + b + "." + c
  {
    assert Remove('.', a + "." + b + "," + c) == a + b + "," + c by {
      assert a + "." + b + "," + c == a + "." + (b + "," + c);
      RemoveSeparator(a, b + "," + c);
      assert a + (b + "," + c) == a + b + "," + c;
    }
    assert Replace(',', '.', a + b + "," + c) == a + b + "." + c by {
      ReplaceSeparator(a + b, c);
    }
  }

  /** A price with only a decimal comma, `a,c`, becomes `a.c`. */
  lemma NormaliseDecimalComma(a: string, c: string)
    requires '.' !in a && '.' !in c
    requires ',' !in a && ',' !in c
    ensures NormalisePrice(a + "," + c) == a + "." + c
  {
    assert Remove('.', a + "," + c) == a + "," + c by {
      RemoveAbsent('.', a + "," + c);
    }
    ReplaceSeparator(a, c);
  }

  /** A price with both separators, `"3.500,50"`, becomes `"3500.50"`. */
  lemma NormaliseThousands()
    ensures NormalisePrice("3.500,50") == "3500.50"
  {
    assert "3.500,50" == "3" + "." + "500" + "," + "50";
    NormaliseGrouped("3", "500", "50");
    assert "3" + "500" + "." + "50" == "3500.50";
  }

  /** `"900,25"` becomes `"900.25"`. */
  lemma NormaliseComma()
    ensures NormalisePrice("900,25") == "900.25"
  {
    assert "900,25" == "900" + "," + "25";
    NormaliseDecimalComma("900", "25");
  }

  /** An already-dotted `"3500.50"` loses its dot and becomes `"350050"`. */
  lemma NormaliseDotted()
    ensures NormalisePrice("3500.50") == "350050"
  {
    assert Remove('.', "3500.50") == "350050" by {
      assert "3500.50" == "3500" + "." + "50";
      RemoveSeparator("3500", "50");
    }
    ReplaceAbsent(',', '.', "350050");
  }

  /** The value of the digits `a` followed by the fraction digits `b`. */
  function DecimalValue(a: string, b: string): real
    requires AllDigits(a) && AllDigits(b)
  {
    DigitsValue(a) as real + DigitsValue(b) as real / Pow10(|b|) as real
  }

  /** `float(text)` on an unsigned decimal: digits, optionally a `.` and more digits, at least one digit. */
  function ParseUnsigned(s: string): Option<real>
  {
    var parts := Split('.', s);
    if |parts| == 1 && parts[0] != [] && AllDigits(parts[0]) then Some(DigitsValue(parts[0]) as real)
    else if |parts| == 2 && AllDigits(parts[0]) && AllDigits(parts[1]) && |parts[0]| + |parts[1]| > 0
    then Some(DecimalValue(parts[0], parts[1]))
    else None
  }

  /** `float(text)` on a decimal with an optional sign; `None` where Python raises `ValueError`. */
  function ParseDecimal(s: string): Option<real>
  {
    if s != [] && (s[0] == '-' || s[0] == '+') then
      match ParseUnsigned(s[1..])
      case Some(v) => Some(if s[0] == '-' then -v else v)
      case None => None
    else ParseUnsigned(s)
  }

  /** Text that starts with anything but a sign, a dot or a digit is not a decimal. */
  lemma ParseDecimalRejects(s: string)
    requires s != [] && s[0] !in "+-." && !IsDigit(s[0])
    ensures ParseDecimal(s) == None
  {
    assert Split('.', s)[0][0] == s[0];
  }

  /** Digits, a dot and digits read as whole part plus fraction. */
  lemma ParseDecimalFraction(a: string, b: string)
    requires AllDigits(a) && AllDigits(b) && |a| + |b| > 0
    ensures ParseDecimal(a + "." + b) == Some(DecimalValue(a, b))
  {
    SplitCons('.', a, b);
    SplitNone('.', b);
    assert Split('.', a + "." + b) == [a, b];
    if a != [] {
      assert (a + "." + b)[0] == a[0];
    } else {
      assert (a + "." + b)[0] == '.';
    }
  }

  /** A string of digits is read as the whole number it denotes. */
  lemma ParseDecimalWhole(a: string)
    requires AllDigits(a) && a != []
    ensures ParseDecimal(a) == Some(DigitsValue(a) as real)
  {
    SplitNone('.', a);
  }

  lemma DigitsExamples()
    ensures DigitsValue("3500") == 3500 && DigitsValue("50") == 50
    ensures DigitsValue("900") == 900 && DigitsValue("25") == 25
  {
    assert "3500"[..3] == "350" && "350"[..2] == "35" && "35"[..1] == "3" && "3"[..0] == [];
    assert "50"[..1] == "5" && "5"[..0] == [];
    assert "900"[..2] == "90" && "90"[..1] == "9" && "9"[..0] == [];
    assert "25"[..1] == "2" && "2"[..0] == [];
  }

  lemma DecimalExamples()
    ensures DecimalValue("3500", "50") == 3500.50
    ensures DecimalValue("900", "25") == 900.25
  {
    DigitsExamples();
    assert Pow10(2) == 100;
  }

  lemma ParseExample3500()
    ensures ParseDecimal("3500.50") == Some(3500.50)
  {
    assert "3500.50" == "3500" + "." + "50";
    ParseDecimalFraction("3500", "50");
    DecimalExamples();
  }

  lemma ParseExample900()
    ensures ParseDecimal("900.25") == Some(900.25)
  {
    assert "900.25" == "900" + "." + "25";
    ParseDecimalFraction("900", "25");
    DecimalExamples();
  }

  /** Example prices in the file's decimal-comma format, `"3.500,50"` and `"900,25"`, are read as 3500.50 and 900.25. */
  lemma PriceExamples()
    ensures ParseDecimal(NormalisePrice("3.500,50")) == Some(3500.50)
    ensures ParseDecimal(NormalisePrice("900,25")) == Some(900.25)
  {
    NormaliseThousands();
    ParseExample3500();
    NormaliseComma();
    ParseExample900();
  }

  /** `str(nan)` survives the rewrite as `"nan"`, which is not a decimal. */
  lemma NanRejected()
    ensures NormalisePrice("nan") == "nan"
    ensures ParseDecimal(NormalisePrice("nan")) == None
  {
    RemoveAbsent('.', "nan");
    ReplaceAbsent(',', '.', "nan");
    ParseDecimalRejects("nan");
  }

  // ---------------------------------------------------------------- column names

  const ByteOrderMark: char := '\U{FEFF}'

  /** `df.columns.str.replace("﻿", "").str.strip()` for one column name. */
  function CleanHeader(h: string): string
  {
    Trim(Remove(ByteOrderMark, h))
  }

  /** A cleaned name has no byte-order mark and no whitespace at either end, and cleaning again changes nothing. */
  lemma CleanHeaderClean(h: string)
    ensures ByteOrderMark !in CleanHeader(h)
    ensures CleanHeader(h) == [] || (!IsSpace(CleanHeader(h)[0]) && !IsSpace(CleanHeader(h)[|CleanHeader(h)| - 1]))
    ensures Trim(CleanHeader(h)) == CleanHeader(h)
    ensures CleanHeader(CleanHeader(h)) == CleanHeader(h)
  {
    var x := Remove(ByteOrderMark, h);
    RemoveGone(ByteOrderMark, h);
    TrimAbsent(ByteOrderMark, x);
    TrimEnds(x);
    TrimIdempotent(x);
    RemoveAbsent(ByteOrderMark, CleanHeader(h));
  }

  /** The rename applied to the CSV file's Portuguese headers. */
  const Renames: map<string, string> := map[
    "Regiao - Sigla" := "regiao",
    "Estado - Sigla" := "uf",
    "Municipio" := "municipio",
    "Revenda" := "revenda",
    "Produto" := "produto",
    "Data da Coleta" := "data_coleta",
    "Valor de Venda" := "valor_venda",
    "Valor de Compra" := "valor_compra",
    "Bandeira" := "bandeira"
  ]

  /** `df.rename(columns=Renames)` for one column name: names outside the map are kept. */
  function RenameColumn(n: string): string
  {
    if n in Renames then Renames[n] else n
  }

  /**
   * Exactly the nine listed source names are changed, each into its canonical name; every other
   * name is left as it is, and renaming twice is renaming once.
   */
  lemma RenameExact(n: string)
    ensures RenameColumn(n) != n <==> n in {"Regiao - Sigla", "Estado - Sigla", "Municipio", "Revenda", "Produto",
                                           "Data da Coleta", "Valor de Venda", "Valor de Compra", "Bandeira"}
    ensures RenameColumn(n) != n ==> RenameColumn(n) in {"regiao", "uf", "municipio", "revenda", "produto",
                                                         "data_coleta", "valor_venda", "valor_compra", "bandeira"}
    ensures RenameColumn(RenameColumn(n)) == RenameColumn(n)
  {
  }

  // ---------------------------------------------------------------- missing values

  const NotInformed: string := "Não informada"

  /** `fillna("Não informada")` for one cell of the brand or region column. */
  function FillMissing(v: Option<string>): (r: Option<string>)
    ensures r.Some?
    ensures v.Some? ==> r == v
    ensures v.None? ==> r.value == NotInformed
  {
    if v.Some? then v else Some(NotInformed)
  }
}
