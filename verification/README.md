# Kenya tree-planting dashboard: the row pipeline

A Dafny model of the data path of the Folium edition of the Kenya tree-planting
dashboard (`streamlitapp.py`). Each page render runs three stages over the
planting table:

1. **Load**: the headerless CSV's eight cells get their column names by
   position. The date cell is parsed as a datetime. The seedlings, latitude and
   longitude cells are parsed as numbers. A cell that fails to parse becomes
   missing. Rows with a missing coordinate are dropped. So are rows outside the
   Kenya bounding box, latitude -5..5 and longitude 33..42, bounds included.
2. **Season**: each row gets a `month` from its date and an `is_rainy` flag,
   true iff the month is one of 3, 4, 5, 10, 11, 12. The sidebar choice All /
   Rainy / Dry keeps all rows, the rainy rows, or the others.
3. **Metrics**: total trees, the record count and the rainy-season percentage
   over the selected rows.

Modules: `Optional` (the missing-value wrapper), `Sequences` (filter, map and
subsequence, with their lemmas), `Records` (raw and coerced row types, the
parsers), `Loader`, `Seasons`, `Metrics` and `Dashboard` (one render end to end).

Modelling choices:
- The date and number parsers are a `Parsers` value passed in. They are total
  functions from a cell's text to an optional value.
- Coordinates and seedlings are `real`. A parsed number may be negative or
  fractional, because the numeric conversion accepts any number. "Total Trees"
  is the exact sum of the present counts cut toward zero, as Python's `int()`
  does. `Metrics.TotalTreesOfWholeCounts` covers the usual case of whole,
  non-negative counts.
- A missing seedlings value is skipped by the sum and contributes nothing.
- A row with a missing date has no month. It is therefore not rainy and
  appears under Dry.
- The percentage is an exact real, `100 × rainy / count`, or 0 with no rows.
- The code never converts gps_str, month_year, temperature or rainfall
  explicitly. They are kept as opaque cell text.

Two points about the program's behaviour:
- The seedlings column accepts any number, negative or fractional included,
  because it goes through the same numeric conversion as the coordinates
  (streamlitapp.py:25-26).
- `on_bad_lines="skip"` drops only lines with too many fields; a line with
  too few is padded with missing values (streamlitapp.py:18). CSV reading is
  outside this model.

## Model

| member | source | states |
|---|---|---|
| Loader.RestrictToKenya | streamlitapp.py:27-34 | every kept row has both coordinates, with -5 ≤ lat ≤ 5 and 33 ≤ lon ≤ 42; a row is kept iff it has both coordinates inside the box, and every copy of such a row is kept; the kept rows are the input rows, unchanged and in order, with some removed |
| Loader.LoadData | streamlitapp.py:17-34 | the load result is no longer than the input, lies wholly in the Kenya box, and is an order-preserving subsequence of the coerced input lines |
| Loader.LoadDataSurvivors | streamlitapp.py:19-34 | the load result equals the coerced image of exactly those lines whose latitude and longitude cells parse into the box, in file order; so a failed date or seedlings parse never drops a line, and every line with good coordinates appears in the result |
| Seasons.Month | streamlitapp.py:44 | the derived month is present iff the planting date is present |
| Seasons.IsRainy | streamlitapp.py:43-45 | a row is rainy iff its date is present and its month falls in March-May or October-December; an undated row is not rainy |
| Seasons.Select | streamlitapp.py:47-50 | All returns the rows unchanged; Rainy keeps exactly the rainy rows and Dry exactly the non-rainy ones, each as many times as it occurs in the input; every result is an order-preserving subsequence of the input |
| Seasons.SelectIdempotent | streamlitapp.py:47-50 | applying the same season choice twice gives the same rows as applying it once |
| Seasons.RainyDryPartition | streamlitapp.py:45-50 | the Rainy and Dry views share no row, every input row lies in one of them, and together they hold each row of the All view exactly as often as it occurs there |
| Seasons.UndatedRowIsDry | streamlitapp.py:44-50 | a row whose date did not parse is absent from the Rainy view and present in the Dry view |
| Metrics.TruncateTowardZero | streamlitapp.py:56 | the integer conversion drops the fraction: for a non-negative value it is the largest integer not above it, for a negative one the smallest integer not below it |
| Metrics.TotalTrees | streamlitapp.py:56 | the total is 0 for no rows; otherwise it is the seedlings sum cut toward zero: for a non-negative sum the largest integer not above it, for a negative sum the smallest integer not below it |
| Metrics.MissingSeedlingsSkipped | streamlitapp.py:56 | the seedlings sum equals the sum over only the rows whose count is present, so missing counts add nothing |
| Metrics.TotalTreesOfWholeCounts | streamlitapp.py:56 | when every present count is a whole non-negative number, the total trees equal the integer sum of the counts and are not negative |
| Metrics.RainyCount | streamlitapp.py:45 | the number of rainy rows is at most the row count; it is 0 iff no row is rainy and equals the row count iff every row is rainy |
| Metrics.RainyCountIsRainySelection | streamlitapp.py:45-48 | the number of rainy rows is the size of the Rainy view |
| Metrics.RainyPercent | streamlitapp.py:58 | the percentage lies in [0, 100]; it is 0 for no rows; it is 0 iff no row is rainy, and 100 iff there are rows and all of them are rainy |
| Metrics.RainyPercentIsShare | streamlitapp.py:58 | for a non-empty set the percentage equals 100 × (size of the Rainy view) / (row count) |
| Metrics.SeasonTotalsAddUp | streamlitapp.py:47-57 | the seedlings sums of the Rainy and Dry views add up to that of the All view, and so do their record counts |
| Metrics.SelectedViewPercent | streamlitapp.py:47-58 | a non-empty Rainy view shows 100% rainy, and a Dry view always shows 0% |
| Dashboard.Summarize | streamlitapp.py:56-58 | one pass over the shown rows yields exactly the total trees, the record count and the rainy percentage defined above |
| Dashboard.ViewInvariants | streamlitapp.py:17-58 | for any file, parser and season choice, the shown rows lie in the Kenya box and are the coerced file lines in order with some removed; under Rainy every shown row is rainy and under Dry none is; a non-empty Rainy view shows 100% and a Dry view 0% |

## Left out

- Page configuration, title, sidebar widgets, metric widgets and load caching (streamlitapp.py:9-11, 16, 41-42, 55): user-interface and framework plumbing with no data logic.
- Reading the CSV file and skipping malformed lines (streamlitapp.py:18): file I/O inside the dataframe library. The model starts from lines already split into eight cells, so it does not cover two ways the load fails: an empty file makes the reader raise an error at streamlitapp.py:18, and a file whose first line does not have eight fields makes the column renaming at streamlitapp.py:19-22 raise an error, because the reader takes the column count from the first line.
- The CSV reader's type inference (streamlitapp.py:18): it turns numeric-looking cells into numbers and empty or "NA" cells into missing values in every column, including gps_str, month_year, temperature and rainfall. Those four columns are kept as cell text; nothing downstream in the model reads them.
- How dates and numbers are parsed (streamlitapp.py:24-26): library internals. They are the `Parsers` parameter, and only their optional results are modelled.
- Infinite values: reals have no infinity. A parsed `inf` coordinate fails the box test in the source, so it is covered by modelling the cell as outside the box or missing. A parsed `inf` seedlings count makes the integer conversion of the total raise an error; that failure is not modelled.
- Metrics.TotalTrees: stated over the exact, unbounded sum. Floating-point rounding in the column sum is not modelled. Neither is 64-bit wrap-around: when every seedlings cell parses as an integer the column is int64, and its sum wraps past 2^63 without an error.
- Metrics.RainyPercent: stated as an exact real, because the one-decimal display rounding and the thousands separator of the total (streamlitapp.py:56, 59) are formatting only.
- The Folium map, its centre as the mean coordinate, per-row popups and the empty-view warning (streamlitapp.py:64-87): rendering and float averaging.
- The data table and CSV download (streamlitapp.py:92-95): serialisation and I/O.
