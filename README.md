# GLP price dashboard — a verified model of its data core

The dashboard shows the retail prices of GLP (bottled cooking gas) that the Brazilian fuel agency
collects. A CSV table of price samples is loaded once. Each sample has a region, a state, a brand, a
collection date and a sale price. A Dash callback then filters the table by the user's selection of
regions, brands and a date range. From the filtered rows it computes the tables behind six charts:
- the mean price per state, largest first;
- the mean price per (date, region), in date order;
- the mean price per brand, largest first;
- the prices, for a histogram;
- (brand, price) pairs, for a box plot;
- the number of samples per brand, for a pie chart.

The layout offers the sorted distinct regions and brands as dropdown options and the earliest and
latest collection dates as the date picker's bounds.

The repository has two copies of this pipeline, and both are modelled:
- the package: `dashboard/data/loader.py`, `dashboard/callbacks/dashboard_callbacks.py` and `dashboard/layout/dashboard_layout.py`;
- the single script `dashboard/dashboard.py`. It does not clean headers, it parses dates strictly, and it writes the callback's tests as `is not None` and `len(...) > 0`.

Modules:
- `Wrappers`: `Option` and `Result`.
- `Strings`: the Python `str` operations the loader uses. These are `replace` of one character (as removal and as substitution), `strip` with Python's whitespace set, and code-point order (`sorted` on strings). `Split` on one character is used to model the `/`-separated `%d/%m/%Y` pattern and the decimal point of the float grammar.
- `Dates` parses `%d/%m/%Y` into a calendar date. A date becomes an order-preserving integer key, so `None` stands for NaT.
- `Normalise`: price normalisation, the decimal grammar behind `astype(float)`, header cleaning, the rename map and the sentinel fill.
- `Records`: the five fields the callbacks read.
- `Frames`: a `Frame` class standing for the pandas DataFrame that the loader relabels and whose columns it overwrites in place.
- `Loader`: `load_data` as a specification function `Load`, plus the step-by-step method `LoadData` on a `Frame` that is proved equal to it. The `Variant` parameter selects the package loader or the script's preparation.
- `Sorting`: `sort_values(ascending=False)` as a descending sort specified only by order and permutation.
- `Grouping`: `groupby(...).mean()` and `value_counts()` on samples with optional keys.
- `Callbacks`: the filter and the six chart inputs of `atualizar_graficos`.
- `Layout`: the dropdown options and date bounds of `build_layout`.
- `Dashboard`: the script's own callback and module-level preparation. They are related to the package's.

The code renames nine columns (`dashboard/data/loader.py:12-22`). A missing `uf` column is not fatal at load in the code. Only the four columns the loader itself touches are needed at load; a missing `uf` raises `KeyError` later, in the callback. The model reports a missing `uf` as `MissingColumn("uf")` at load (see Left out).

## Model

| member | source | states |
|---|---|---|
| Strings.CountZero | dashboard/data/loader.py:29-30 | a character occurs zero times exactly when it is absent |
| Strings.RemoveGone | dashboard/data/loader.py:29 | removing `.` deletes every occurrence and shortens the text by the number removed |
| Strings.RemoveKeeps | dashboard/data/loader.py:29 | removing one character leaves the count of every other character unchanged |
| Strings.RemoveAppend | dashboard/data/loader.py:29 | removal distributes over concatenation |
| Strings.Replace | dashboard/data/loader.py:30 | same length; each position holds the substitute where the original had the replaced character, and is unchanged elsewhere |
| Strings.ReplaceCounts | dashboard/data/loader.py:30 | after substitution the replaced character is gone and the substitute's count grows by exactly its count |
| Strings.RemoveAbsent | dashboard/data/loader.py:29 | removing an absent character changes nothing |
| Strings.ReplaceAbsent | dashboard/data/loader.py:30 | replacing an absent character changes nothing |
| Strings.ReplaceBack | dashboard/data/loader.py:30 | substitution is undone by the reverse substitution when the substitute did not occur before |
| Strings.SplitCons | dashboard/data/loader.py:24 | for the `/`-separated fields of `%d/%m/%Y`: splitting peels off the first field up to the separator |
| Strings.SplitNone | dashboard/data/loader.py:24 | for the `/`-separated fields of `%d/%m/%Y`: a text without the separator is a single field |
| Strings.TrimStart | dashboard/data/loader.py:10 | the result is a suffix of the input, everything dropped is whitespace, and it does not start with whitespace |
| Strings.TrimEnd | dashboard/data/loader.py:10 | the result is a prefix of the input, everything dropped is whitespace, and it does not end with whitespace |
| Strings.TrimEnds | dashboard/data/loader.py:10 | a stripped name neither starts nor ends with whitespace |
| Strings.TrimAbsent | dashboard/data/loader.py:10 | stripping never introduces a character |
| Strings.TrimIdempotent | dashboard/data/loader.py:10 | stripping twice is stripping once |
| Strings.BelowIrreflexive | dashboard/layout/dashboard_layout.py:4-5 | no string sorts before itself |
| Strings.BelowTransitive | dashboard/layout/dashboard_layout.py:4-5 | string order is transitive |
| Strings.BelowTotal | dashboard/layout/dashboard_layout.py:4-5 | any two distinct strings are ordered one way or the other |
| Strings.DigitsValue | dashboard/data/loader.py:31 | a run of k decimal digits denotes a number below 10^k |
| Dates.DaysInMonth | dashboard/data/loader.py:24 | every month has 28 to 31 days |
| Dates.KeyOrder | dashboard/callbacks/dashboard_callbacks.py:28 | the integer key of a date orders dates chronologically and identifies them |
| Dates.DayToken | dashboard/data/loader.py:24 | an accepted `%d` field is a day 1..31 |
| Dates.MonthToken | dashboard/data/loader.py:24 | an accepted `%m` field is a month 1..12 |
| Dates.YearToken | dashboard/data/loader.py:24 | an accepted `%Y` field is a four-digit year |
| Dates.ParseDate | dashboard/data/loader.py:24 | every date `%d/%m/%Y` accepts is a real calendar date (month length and leap years respected) |
| Dates.FourDigits | dashboard/data/loader.py:24 | four digits that read back as the year |
| Dates.DayTokenTwoDigits | dashboard/data/loader.py:24 | a zero-padded day is read back as that day |
| Dates.MonthTokenTwoDigits | dashboard/data/loader.py:24 | a zero-padded month is read back as that month |
| Dates.SplitFormat | dashboard/data/loader.py:24 | a formatted date splits into its three padded fields |
| Dates.ParseFormat | dashboard/data/loader.py:24 | parsing `%d/%m/%Y` recovers every valid date written in that format (round trip) |
| Normalise.NormalisePrice | dashboard/data/loader.py:29-30 | removes every `.` and then turns every `,` into `.`; its contract is `Normalise.NormalisePriceShape`, with `Normalise.NormalisePriceIdempotentIff` and the worked examples beside it |
| Normalise.ParseDecimal | dashboard/data/loader.py:31 | the decimal grammar behind `astype(float)`; its contract is `Normalise.ParseDecimalFraction`, `Normalise.ParseDecimalWhole` and `Normalise.ParseDecimalRejects` |
| Normalise.CleanHeader | dashboard/data/loader.py:10 | drops U+FEFF and then strips; its contract is `Normalise.CleanHeaderClean` |
| Normalise.RenameColumn | dashboard/data/loader.py:12-22 | the nine-entry rename; its contract is `Normalise.RenameExact` |
| Normalise.NormalisePriceShape | dashboard/data/loader.py:29-30 | the normalised price has no `,`, as many `.` as the input had `,`, the input's length minus its `.` count, and is the input without `.` with `,` rewritten in place |
| Normalise.NormalisePriceIdempotentIff | dashboard/data/loader.py:29-30 | normalising twice equals normalising once exactly when the input has no `,` |
| Normalise.NormaliseGrouped | dashboard/data/loader.py:29-30 | a grouped price `a.b,c` becomes `ab.c` |
| Normalise.NormaliseDecimalComma | dashboard/data/loader.py:29-30 | a price `a,c` becomes `a.c` |
| Normalise.NormaliseThousands | dashboard/data/loader.py:29-30 | `"3.500,50"` becomes `"3500.50"` |
| Normalise.NormaliseComma | dashboard/data/loader.py:29-30 | `"900,25"` becomes `"900.25"` |
| Normalise.NormaliseDotted | dashboard/data/loader.py:29-30 | in a price column read as text, an already dotted `"3500.50"` becomes `"350050"`: the rewrite is not special-cased |
| Normalise.ParseDecimalRejects | dashboard/data/loader.py:31 | text starting with neither a sign, a point nor a digit is not accepted by the model's decimal grammar |
| Normalise.ParseDecimalFraction | dashboard/data/loader.py:31 | digits, a point and digits denote the decimal value of the two digit runs |
| Normalise.ParseDecimalWhole | dashboard/data/loader.py:31 | a digit run denotes its integer value |
| Normalise.PriceExamples | dashboard/data/loader.py:26-32 | `"3.500,50"` is read as 3500.50 and `"900,25"` as 900.25 |
| Normalise.NanRejected | dashboard/data/loader.py:28-31 | the text `astype(str)` gives a missing cell survives normalisation and is not accepted as a decimal |
| Normalise.CleanHeaderClean | dashboard/data/loader.py:10 | a cleaned name has no U+FEFF and no surrounding whitespace, and cleaning again changes nothing |
| Normalise.RenameExact | dashboard/data/loader.py:12-22 | exactly the nine listed source names are renamed, each to its canonical name, every other name is kept, and renaming again changes nothing |
| Normalise.FillMissing | dashboard/data/loader.py:34-35 | after the fill a value is always present, a present value is unchanged and an absent one becomes "Não informada" |
| Frames.Position | dashboard/data/loader.py:24 | the first column carrying a label, or none exactly when no column carries it |
| Frames.Frame.constructor | dashboard/data/loader.py:8 | a frame holding the read header and every column as text |
| Frames.Frame.Relabel | dashboard/data/loader.py:10-22 | `df.columns = ...` and `rename`: the labels are replaced and every column is kept |
| Frames.Frame.Assign | dashboard/data/loader.py:24-35 | `df[name] = ...`: one column is replaced and nothing else changes |
| Loader.CleanedAt | dashboard/data/loader.py:10 | the `.str` cleaning acts on each label on its own: the label at each position is the cleaning of the one read there |
| Loader.CleanedLabels | dashboard/data/loader.py:10 | every cleaned header is free of U+FEFF and surrounding whitespace, and cleaning the header twice is cleaning it once |
| Loader.RenamedTwice | dashboard/data/loader.py:12-22 | renaming the header twice is renaming it once |
| Loader.Locate | dashboard/data/loader.py:24-35 | a column is found exactly when its label is present, and a missing one is reported by name |
| Loader.DateOf | dashboard/data/loader.py:24 | `to_datetime(..., format="%d/%m/%Y", errors="coerce")` of one cell; its contract is `Loader.DateOfFormat` together with `Dates.ParseFormat` and `Dates.ParseDate` |
| Loader.ReadDates | dashboard/data/loader.py:24 | on success each row's day is the parse of its cell; only the strict variant can fail, and only with a bad date |
| Loader.ReadDatesFails | dashboard/dashboard.py:32 | date conversion fails exactly when the strict variant meets a present cell that is not `%d/%m/%Y` |
| Loader.ReadDatesSame | dashboard/data/loader.py:24 | with no malformed cell, coercing and strict conversion agree |
| Loader.PriceOf | dashboard/data/loader.py:26-32 | the price of one cell: any failure is a bad price; its examples are `Loader.PriceOfExamples` |
| Loader.PriceOfExamples | dashboard/data/loader.py:26-32 | two example prices in the decimal-comma format are read exactly and a missing price fails as `"nan"` |
| Loader.ReadPrices | dashboard/data/loader.py:26-32 | on success each row's price is its cell's reading; a failure is always a bad price |
| Loader.ReadPricesSucceeds | dashboard/data/loader.py:26-32 | price conversion succeeds exactly when every cell reads as a decimal |
| Loader.Fill | dashboard/data/loader.py:34-35 | `fillna("Não informada")`: same length, each cell `Normalise.FillMissing` of the original |
| Loader.WithLabels | dashboard/data/loader.py:24-37 | the load after labelling: only the strict variant fails on a date; its success condition is `Loader.WithLabelsSucceeds` |
| Loader.Load | dashboard/data/loader.py:7-37 | only the strict variant can fail on a date |
| Loader.WithDates | dashboard/data/loader.py:26-37 | no failure after the date step is a date failure |
| Loader.WithPrices | dashboard/data/loader.py:34-37 | the only failure left after the price step is a missing column |
| Loader.LoadData | dashboard/data/loader.py:7-37 | the in-place preparation of one frame yields exactly `Load` |
| Loader.ConvertDates | dashboard/data/loader.py:24-37 | converting the date column in place and continuing yields the specified result; on success the frame ends with dates and prices converted, brand and region filled and every other column as read |
| Loader.ConvertPrices | dashboard/data/loader.py:26-37 | converting the price column in place and continuing yields the specified result; on success the frame ends with the given dates, the converted prices, brand and region filled and every other column as read |
| Loader.FillText | dashboard/data/loader.py:34-37 | filling brand and region in place yields the specified records; on success the frame ends with both filled and only the date, price, brand and region columns rewritten |
| Loader.Collect | dashboard/data/loader.py:37 | reading the records off the prepared frame, without changing it, gives the specified result, failing only on a missing `uf` |
| Loader.WithLabelsSucceeds | dashboard/data/loader.py:12-37 | with given labels the load succeeds exactly when the needed columns are present, every price reads, and in the strict variant every date reads |
| Loader.LoadSucceeds | dashboard/data/loader.py:7-37 | the same success condition stated on the raw header |
| Loader.LoadValue | dashboard/data/loader.py:7-37 | a successful load is the row-by-row combination of the filled region, the state, the parsed days, the parsed prices and the filled brand |
| Loader.LoadRecords | dashboard/data/loader.py:24-35 | every loaded row has a region and a brand, the present ones as read and the absent ones as the sentinel; its state, day and price are the cell's readings |
| Loader.ScriptStrict | dashboard/dashboard.py:32 | the script's load fails on a date exactly when some present date cell is malformed |
| Loader.WithLabelsAgree | dashboard/dashboard.py:32-43 | with no malformed date, the package and script steps after labelling agree |
| Loader.VariantsAgree | dashboard/dashboard.py:16-43 | on a clean header with no malformed date, the script's preparation equals the package loader |
| Loader.DateOfFormat | dashboard/data/loader.py:24 | a cell holding a formatted date is read back as that date's key |
| Sorting.InsertPermutes | dashboard/callbacks/dashboard_callbacks.py:39 | insertion adds exactly the new element |
| Sorting.InsertDescending | dashboard/callbacks/dashboard_callbacks.py:39 | insertion keeps the table non-increasing |
| Sorting.SortDescCorrect | dashboard/callbacks/dashboard_callbacks.py:39 | the sort is non-increasing by rank and a permutation of its input |
| Sorting.SortDescMembers | dashboard/callbacks/dashboard_callbacks.py:39 | the sorted table has the same length and exactly the same rows |
| Sorting.SortDescDistinct | dashboard/callbacks/dashboard_callbacks.py:39 | keys distinct before sorting stay distinct |
| Sorting.SortDescSum | dashboard/callbacks/dashboard_callbacks.py:39 | sorting leaves a sum over the table unchanged |
| Grouping.KnownAll | dashboard/dashboard.py:274-275 | when every key is present, the samples with a key are all of them |
| Grouping.KeysOfCount | dashboard/callbacks/dashboard_callbacks.py:38 | a key has a group exactly when some sample carries it, that is, when its count is at least one |
| Grouping.Find | dashboard/callbacks/dashboard_callbacks.py:38 | finds the group of a key, or reports that none has it |
| Grouping.GroupsTabulate | dashboard/callbacks/dashboard_callbacks.py:38 | grouping yields one group per present key, holding that key's sum and count; missing keys are dropped |
| Grouping.GroupsTotal | dashboard/callbacks/dashboard_callbacks.py:38 | the groups' totals add up to the sum, and their sizes to the count, of the samples with a key |
| Grouping.MeanTableCorrect | dashboard/callbacks/dashboard_callbacks.py:38-39 | one mean per present key, keys distinct, each the group's sum over its count |
| Grouping.TallyTableCorrect | dashboard/callbacks/dashboard_callbacks.py:67 | one count per present key, keys distinct, each at least one and equal to the key's count, adding up to the samples with a key |
| Grouping.MeanTableWeighted | dashboard/callbacks/dashboard_callbacks.py:53-56 | each mean times its group's size, added up, is the total of the samples with a key |
| Grouping.MinMaxAttained | dashboard/callbacks/dashboard_callbacks.py:38 | a group's minimum and maximum are prices of samples in it |
| Grouping.MinMaxBound | dashboard/callbacks/dashboard_callbacks.py:38 | every price in a group lies between its minimum and maximum |
| Grouping.MeanBetween | dashboard/callbacks/dashboard_callbacks.py:38-39 | a present key's mean lies between the group's least and greatest price, both attained |
| Callbacks.Filter | dashboard/callbacks/dashboard_callbacks.py:22-34 | the three conditional masks; its contract is `Callbacks.FilterCorrect`, with `Callbacks.FilterIdempotent`, `Callbacks.FilterOrder` and `Callbacks.FilterNothing` |
| Callbacks.MeanByState | dashboard/callbacks/dashboard_callbacks.py:37-40 | the state means; its contract is `Callbacks.MeanByStateCorrect` |
| Callbacks.MeanByDateRegion | dashboard/callbacks/dashboard_callbacks.py:45-48 | the (date, region) means; its contract is `Callbacks.MeanByDateRegionCorrect` |
| Callbacks.MeanByBrand | dashboard/callbacks/dashboard_callbacks.py:53-56 | the brand means; its contract is `Callbacks.MeanByBrandCorrect` and `Callbacks.MeanByBrandWeighted` |
| Callbacks.BrandCounts | dashboard/callbacks/dashboard_callbacks.py:67-68 | `value_counts()` of the brand; its contract is `Callbacks.BrandCountsCorrect` and `Callbacks.BrandsComplete` |
| Callbacks.Prices | dashboard/callbacks/dashboard_callbacks.py:61 | the histogram's input; its contract is `Callbacks.ChartInputs` |
| Callbacks.BrandPrices | dashboard/callbacks/dashboard_callbacks.py:64 | the box plot's input; its contract is `Callbacks.ChartInputs` |
| Callbacks.AtualizarGraficos | dashboard/callbacks/dashboard_callbacks.py:22-71 | the six chart tables of the filtered rows; its contracts are the lemmas on each table and `Callbacks.ChartInputs` |
| Callbacks.Where | dashboard/callbacks/dashboard_callbacks.py:28 | boolean indexing never adds rows; its membership and multiplicities are `Callbacks.WhereMembers` and `Callbacks.WhereMultiset` |
| Callbacks.WhereMembers | dashboard/callbacks/dashboard_callbacks.py:28-34 | a row is kept exactly when it was in the table and passes the mask |
| Callbacks.WhereMultiset | dashboard/callbacks/dashboard_callbacks.py:28-34 | a row that passes the mask is kept as many times as it occurs in the table, a row that fails it not at all |
| Callbacks.WhereSubsequence | dashboard/callbacks/dashboard_callbacks.py:28-34 | the kept rows are an order-preserving subsequence |
| Callbacks.WhereAll | dashboard/callbacks/dashboard_callbacks.py:28-34 | a mask every row passes keeps the table |
| Callbacks.WhereWhere | dashboard/callbacks/dashboard_callbacks.py:28-34 | two successive masks equal one mask testing both |
| Callbacks.WhereSame | dashboard/dashboard.py:194-201 | masks that agree row by row select the same rows |
| Callbacks.WhereCommute | dashboard/callbacks/dashboard_callbacks.py:28-34 | successive masks commute |
| Callbacks.Stages | dashboard/callbacks/dashboard_callbacks.py:25-34 | each conditional stage equals boolean indexing by its own test, a test that passes every row while the stage is off |
| Callbacks.FilterWhere | dashboard/callbacks/dashboard_callbacks.py:23-34 | the three stages together equal a single mask testing all three |
| Callbacks.FilterCorrect | dashboard/callbacks/dashboard_callbacks.py:23-34 | the filtered rows are an order-preserving subsequence no longer than the table; a row is in the result exactly when it is in the table and passes all three tests, and then as many times as it occurs in the table, while a row failing a test does not occur at all; with a date range every kept row has a date within it, so NaT is dropped; with a region or brand choice every kept row's value is chosen |
| Callbacks.FilterNothing | dashboard/callbacks/dashboard_callbacks.py:25-34 | with no date range and no region or brand choice the table is returned whole |
| Callbacks.FilterIdempotent | dashboard/callbacks/dashboard_callbacks.py:23-34 | filtering the filtered rows again changes nothing |
| Callbacks.FilterOrder | dashboard/callbacks/dashboard_callbacks.py:25-34 | any two of the three stages can be applied in either order |
| Callbacks.SortedMeans | dashboard/callbacks/dashboard_callbacks.py:37-40 | a sorted mean table is non-increasing, a permutation of the group means, one row per present key, each row the group's mean between its minimum and maximum |
| Callbacks.SamplesKeys | dashboard/callbacks/dashboard_callbacks.py:38 | a key has a group exactly when some row carries it |
| Callbacks.MeansCover | dashboard/callbacks/dashboard_callbacks.py:37-40 | a sorted mean table has a row for a key exactly when some row carries it |
| Callbacks.MeanByStateCorrect | dashboard/callbacks/dashboard_callbacks.py:37-40 | state means are non-increasing, a permutation of the group means, one per distinct present `uf`, each the mean of that state's prices between its minimum and maximum; no rows give no means |
| Callbacks.MeanByDateRegionCorrect | dashboard/callbacks/dashboard_callbacks.py:45-48 | the date/region means come in non-decreasing date order, one per distinct (date, region) pair present, each the pair's mean |
| Callbacks.MeanByBrandCorrect | dashboard/callbacks/dashboard_callbacks.py:53-56 | brand means are non-increasing, one per distinct present brand, each that brand's mean |
| Callbacks.MeanByBrandWeighted | dashboard/callbacks/dashboard_callbacks.py:53-68 | the brand means weighted by the brand counts add up to the total price of the rows with a brand |
| Callbacks.SortedTallies | dashboard/callbacks/dashboard_callbacks.py:67 | a sorted count table is non-increasing, a permutation, one row per present key, each count at least one and that key's count, adding up to the samples with a key |
| Callbacks.BrandCountsCorrect | dashboard/callbacks/dashboard_callbacks.py:67-68 | brand counts are non-increasing, one per distinct present brand, each at least one and that brand's number of rows, adding up to the rows with a brand |
| Callbacks.BrandsComplete | dashboard/callbacks/dashboard_callbacks.py:53-68 | when every row has a brand, the counts add up to the number of rows and the count-weighted brand means to the total price |
| Callbacks.ChartInputs | dashboard/callbacks/dashboard_callbacks.py:61-64 | the histogram gets, position by position, the price of each filtered row and the box plot its (brand, price) pair, so every value occurs as often as among the filtered rows |
| Layout.SortedUnique | dashboard/layout/dashboard_layout.py:4-5 | `sorted(column.dropna().unique())`; its contract is `Layout.SortedUniqueCorrect` |
| Layout.FilterOptions | dashboard/layout/dashboard_layout.py:4-7 | the options and date bounds; its contracts are `Layout.OptionsListed` and `Layout.DateBounds` |
| Layout.InsertUniqueCorrect | dashboard/layout/dashboard_layout.py:4-5 | inserting into a strictly ascending list keeps it strictly ascending and adds only the new value |
| Layout.SortedUniqueCorrect | dashboard/layout/dashboard_layout.py:4-5 | the listed values are strictly ascending and exactly the present values |
| Layout.MinDate | dashboard/layout/dashboard_layout.py:6 | NaT exactly when no date is defined; otherwise a defined date that is at most every defined date |
| Layout.MaxDate | dashboard/layout/dashboard_layout.py:7 | NaT exactly when no date is defined; otherwise a defined date that is at least every defined date |
| Layout.OptionsListed | dashboard/layout/dashboard_layout.py:4-5 | the region and brand options are ascending, repeat nothing, and are exactly the distinct present values |
| Layout.DateBounds | dashboard/layout/dashboard_layout.py:6-7 | both bounds are NaT exactly when no row has a date; otherwise each is some row's date and every row's date lies between them |
| Dashboard.ScriptFilter | dashboard/dashboard.py:192-201 | the script's staged filter; `Dashboard.ScriptAgrees` proves it equal to `Callbacks.Filter` |
| Dashboard.ScriptGraficos | dashboard/dashboard.py:190-283 | the script's chart tables; `Dashboard.ScriptAgrees` proves them equal to `Callbacks.AtualizarGraficos` |
| Dashboard.ScriptAgrees | dashboard/dashboard.py:190-283 | the script's callback selects the same rows and builds the same tables as the package's |
| Dashboard.LoadedBrandTotals | dashboard/dashboard.py:274-275 | on a table prepared with the fill of lines 42-43 the pie's counts add up to the number of filtered rows and the weighted brand means to their total price |
| Dashboard.SentinelOffered | dashboard/dashboard.py:42-46 | a missing region or brand in the file is offered as "Não informada" in the dropdowns |

## Left out

- Charts: plotly figures, histogram binning, box-plot quartiles, titles and axis labels are not modelled. Only the tables handed to plotly are.
- The Dash layout, widgets, callback registration, app bootstrap and `app.run` are not modelled. The hello-world demo is not part of this model.
- `pd.read_csv`: file I/O, BOM decoding and delimiter sniffing are not modelled. The model starts from a header and columns of optional text cells.
- `pd.read_csv` type inference is not modelled, nor how `astype(str)` writes a float. A price column whose every cell reads as a dotted number becomes float64 in pandas, so `"3.50"` is written back as `"3.5"` and read as 35.0. The model rewrites the text `"3.50"` and reads 350.0. The price rewrite is modelled only for a column read as text.
- `astype(float)`: accepts only optional sign, digits and at most one point. Exponents, `inf`/`nan`, surrounding whitespace and underscores are not accepted. Values are exact reals with no binary rounding.
- Loader.PriceOf: a missing price becomes the text `"nan"`. The source then reads it as a NaN float. The model fails the load with `BadPrice("nan")` instead, since reals have no NaN.
- Dates: years are limited to four digits. pandas' Timestamp range (1677 to 2262) is not enforced. Non-ASCII digits are not accepted.
- Duplicate column labels: a lookup takes the first column with that label.
- Loader.Load: a missing `uf` column fails the load as `MissingColumn("uf")`. The source loads it and raises `KeyError` only when the callback groups by `uf`.
- Callbacks.Filter: the date bounds are taken as day keys. Converting the picker's text with `to_datetime` is not modelled. The script's direct comparison with bound strings is not modelled. An empty-string bound, which truthiness skips and `is not None` does not, is not modelled.
- Callbacks.MeanByDateRegion: `sort_values("data_coleta")` is modelled as a descending sort by the negated day. Only the date order is promised.
- Sorting.SortDesc: the order among equal means or counts is not promised, because pandas' default sort is not stable.
- The renaming of the count table's columns to `bandeira`/`qtd` is cosmetic and is not modelled.
- Grouping.MeanOf: its zero-size branch is never reached, because every group built from samples has at least one member.
- `df.copy()`: tables are values, so the loaded table is never changed by filtering. Aliasing is not modelled.
- Dashboard.SentinelOffered: also demands that the needed columns are present. Every successful load guarantees this (`Loader.LoadRecords`).
