# Stock analysis pipeline, modelled in Dafny

This project models the analysis core of a small stock dashboard. The
dashboard keeps a table of daily prices for one symbol, read from a CSV
price file. It fits a straight trend line of closing price against days
since the first date, and serves three views: the whole history for a
chart, the last seven trading days, and a seven-day forecast. A refresh
route fetches a new daily series, rewrites the price file, reloads the
table and retrains.

The model follows `app.py`:

- `StockAnalysis` is a Dafny class with the two fields the source updates
  in place: `df`, the price table, and `model`, the trend line.
  - `LoadAndCleanData` and `TrainModel` are methods that modify the object.
  - The three views are functions that read it.
- The table's pipeline is split into its parts:
  - coercion, sorting by date and dropping rows without a Close (`series.dfy`, `dates.dfy`);
  - the derived Daily Return, 5-Day MA and Volatility columns (`rolling.dfy`).
  Each derived column is written the way pandas computes it and proved
  equal to a direct definition of what the column means.
- `save_daily_to_csv` becomes a specification function `CsvWrite` and a
  method with the source's loop, proved equal to it (`csv_export.dfy`).
- The `/fetch-data` route and the start-up load/train become methods over
  the object (`refresh.dfy`).

Representation:

- Dates are integer day numbers. A date that does not parse (pandas' NaT)
  is `None`, and the table keeps it.
- Prices are exact reals.
- A float division by zero in the Daily Return is an explicit infinity.
- The fitted model is `Fitted(slope, intercept)`. A model object whose fit
  raised is `Unfitted`, and a model never trained is `None`.
- The regression fit, `read_csv`, `to_datetime`, `to_numeric` and the
  network fetch are parameters:
  - the fit is an opaque function from samples to a (slope, intercept) pair;
  - the file's text is read into lines by a function parameter;
  - the cell parsers are a `Parsers` value;
  - the fetch result is an `Option<Json>`.

## Model

| member | source | states |
|---|---|---|
| Dates.Insert | app.py:31 | inserting a row adds exactly that row to the table and removes none |
| Dates.InsertKeepsOrder | app.py:31 | inserting a row into a date-sorted table (NaT last) keeps it date-sorted |
| Dates.SortByDate | app.py:31 | `sort_values('Date')` returns a permutation of the rows (same multiset, same length) in ascending date order with NaT rows last |
| Dates.SortSortedIsIdentity | app.py:101 | sorting a table in which every row is strictly later than the one before gives back the same table, so with no shared dates the sort's tie handling cannot show |
| Dates.MinDate | app.py:56 | the Date column's `min()` skips NaT; it is a date of the column, no later than any real date, and NaT exactly when every date is NaT |
| Dates.MaxDate | app.py:72 | the Date column's `max()` skips NaT; it is a date of the column, no earlier than any real date, and NaT exactly when every date is NaT |
| Rolling.DailyReturnColumn | app.py:41 | `pct_change().fillna(0)` is 0 for the first row; for later rows it is (c[i] - c[i-1]) / c[i-1] when the previous close is nonzero, otherwise 0 for 0/0 and an infinity of the new close's sign |
| Rolling.PandasReturnAt | app.py:41 | per row, pandas' c[i]/c[i-1] - 1 with NaN filled by 0 equals the relative-change definition of Daily Return |
| Rolling.FirstPresent | app.py:42-43 | the first non-NaN entry of a column, or NaN exactly when every entry is NaN |
| Rolling.BackFill | app.py:42-43 | `fillna(method='backfill')` keeps the column's length; a present value stays, and each NaN takes the first non-NaN value below it, or stays NaN when there is none |
| Rolling.BackFillLeadingGap | app.py:42-43 | backfilling a column whose first k entries are NaN and the rest present copies entry k into every earlier row, and leaves the column all NaN when no entry is present |
| Rolling.MovingAverageColumn | app.py:42 | the 5-Day MA of row i is the mean of closes i-4..i for i >= 4, the value of row 4 for the first four rows, and NaN at every row of a table with fewer than 5 rows |
| Rolling.VolatilityColumn | app.py:43 | the Volatility column follows the same pattern with the sample variance (divisor n - 1) of the same 5-row window |
| Series.DropMissingClose | app.py:38 | after `dropna(subset=['Close'])` every row has a Close and is a row of the input |
| Series.DropCounts | app.py:38 | `dropna(subset=['Close'])` keeps each row that has a Close exactly as often as the input has it, and no row without one |
| Series.DropKeepsOrder | app.py:31-38 | dropping rows after the sort keeps the remaining rows in date order |
| Series.DropIgnoresOrder | app.py:31-38 | dropping rows from two reorderings of the same lines leaves reorderings of each other: sorting before the drop does not change which rows survive |
| Series.DerivedRowsKeepOrder | app.py:41-43 | adding the derived columns keeps the table's date order |
| Series.DeriveColumns | app.py:41-43 | adding the three derived columns changes no coerced cell, sets every derived cell to its definition over the table's closes, and adds no Days column |
| Series.PipelinePrepares | app.py:29-43 | coercing, sorting, dropping rows without a Close and deriving columns leaves a date-sorted table that is a reordering of the parsed lines with a Close, with correct derived columns |
| Series.PreparedRowsComeFromLines | app.py:35-38 | every row of a loaded table comes from a line whose Close parsed to that row's Close and whose Date coerced to its Date, so a line whose Close does not parse never reaches the table; the table has one row per line with a Close |
| Analysis.WithDays | app.py:56 | the Days column is None exactly for NaT dates, at least 0, and its differences equal the date differences; some row has day 0 when any date is real; no other column changes |
| Analysis.EarliestRowIsDayZero | app.py:56 | in a date-sorted table whose first row has a real date, that row's Days is 0 |
| Analysis.RetrainIsIdempotent | app.py:48-64 | training twice on an unchanged table gives the same table and the same model as training once |
| Analysis.ForecastCalendar | app.py:72-82 | a forecast has one point per requested day, dated last+1, last+2, … one day apart, each priced slope × ((last - first) + 1 + i) + intercept |
| Analysis.ForecastFollowsSlope | app.py:74-75 | with a positive slope the forecast prices strictly rise; with a negative slope they strictly fall |
| Analysis.LineFollowsSlope | app.py:75 | a line with a positive slope is higher at a later offset, and one with a negative slope lower |
| Analysis.SevenDayForecastExample | app.py:72-73 | with a latest date of 2024-01-10, a 7-day forecast is dated 2024-01-11 through 2024-01-17 |
| Analysis.StockAnalysis.constructor | app.py:19-22 | a new object has no table and no model |
| Analysis.StockAnalysis.LoadAndCleanData | app.py:24-46 | an unreadable file leaves the old table; otherwise the table becomes the file's lines, coerced, date-sorted, without lines lacking a Close, with the derived columns; the model is not touched |
| Analysis.StockAnalysis.TrainModel | app.py:48-64 | a missing or empty table leaves the table and the model; otherwise the table gains Days and the model is replaced by a new regression, fitted on (Days, Close) unless some Days is NaN, in which case it stays unfitted |
| Analysis.StockAnalysis.PredictFuturePrices | app.py:66-86 | nothing without a fitted model, without a real date, or for a non-positive horizon; otherwise daysAhead points after the latest date, priced on the line at their offset from the earliest date |
| Analysis.StockAnalysis.GetHistoricalData | app.py:88-95 | nothing without a table; otherwise one (Date, Close, 5-Day MA) record per row, in table order |
| Analysis.StockAnalysis.GetPrevious7Days | app.py:97-104 | nothing without a table; otherwise min(7, n) (Date, Close) records in ascending date order, drawn from the table's rows with no row used twice, and every copy of every row dated strictly later than a returned one included; when no two rows share a date they are exactly the table's last rows |
| Analysis.RecentsOfReordering | app.py:101-102 | reordering the rows reorders their (Date, Close) records: the same records, as often |
| Analysis.LatestRowsAreRows | app.py:101-102 | the records of the last rows of a reordering of the table are records of the table's rows, none used twice |
| Analysis.LatestRowsHaveLaterRows | app.py:101-102 | the last rows of a date-sorted reordering of the table include every copy of every row dated strictly later than one of them |
| Analysis.SuffixKeepsOrder | app.py:101 | the last rows of a date-sorted table are date-sorted |
| Analysis.ForecastIsAfterHistory | app.py:72-73 | every forecast date is later than every real date in the table |
| Analysis.LoadKeepsServed | app.py:26-43 | a load leaves a table sorted by date whose Daily Return, 5-Day MA and Volatility are computed from its Close column, when the table before it was one |
| Analysis.TrainingKeepsServed | app.py:51-56 | training adds only Days, so a sorted table with its derived columns keeps both |
| Analysis.ChartOfServedTable | app.py:88-95 | while the table is sorted and its derived columns hold, the chart records are in date order and each record's 5-Day MA is the 5-row mean of the chart's own closes, backfilled |
| Export.LexIrreflexive | app.py:141 | no string comes before itself in the order used by `sorted` |
| Export.LexTransitive | app.py:141 | the string order used by `sorted` is transitive |
| Export.LexTotal | app.py:141 | any two different strings are ordered one way or the other |
| Export.LeastKey | app.py:141 | a non-empty set of keys has exactly one least key |
| Export.SortedKeys | app.py:141 | `sorted(ts_daily.keys())` lists every key exactly once, in strictly ascending order |
| Export.DataRows | app.py:141-150 | one row per key in order, up to the first key whose row cannot be built, where writing stops |
| Export.RowsOfKeys | app.py:141-150 | row i written for a list of keys starts with key i |
| Export.SeriesRowsContents | app.py:141-150 | each row written from a daily series is a date key of the series followed by that day's open, high, low, close and volume, in that order (`RowFor`) |
| Export.SeriesRowsAscend | app.py:141 | the date keys of the written rows strictly ascend |
| Export.SeriesRowsComplete | app.py:141-150 | when every day of the series has all five fields, there is one row per date key and every date key gets a row |
| Export.AllRowsWritten | app.py:141-150 | when every day has all five fields, writing never stops early |
| Export.NoSeriesNoWrite | app.py:131-133 | a document without "Time Series (Daily)" leaves the file untouched |
| Export.WriteRows | app.py:141-150 | the loop writes exactly the rows `DataRows` defines |
| Export.SaveDailyToCsv | app.py:128-153 | the file after the save is what `CsvWrite` defines: untouched without the series, header only when the series is not an object, otherwise the header and the rows |
| Refresh.FileAfterSave | app.py:199 | a save that leaves the file alone keeps it; any other save starts the file with the header |
| Refresh.FetchData | app.py:192-204 | without a usable fetch result the file, table and model are unchanged and the reply is the 500 error; otherwise the route saves, reloads from the saved file and retrains, in that order, and reports success; a sorted table with its derived columns stays one |
| Refresh.Startup | app.py:157-168 | a new object loads the price file and trains only when the load left a non-empty table; the table it leaves is sorted by date with its derived columns computed from its closes |

## Left out

- The Flask app, its routes and template rendering (`app.py:12`, `app.py:172-209`) are serving plumbing. Only the `/fetch-data` body is modelled.
- `fetch_daily_data` (`app.py:108-126`) is an HTTP request. Its result is the `fetched: Option<Json>` parameter of `FetchData`.
- Opening, writing and reading files is I/O. The price file is a value: a sequence of rows of cell values.
  - `read_csv` is a function parameter from that value to the lines read, or `None` when reading fails.
  - The text the csv writer makes of each cell is not modelled.
- The start-up block that creates a header-only price file when none exists (`app.py:159-163`) is file I/O.
- `to_datetime` and `to_numeric` with `errors='coerce'` are the `Parsers` parameter. Date text formats and number syntax are not modelled.
- `LinearRegression.fit` is a foreign call. It is an opaque function from the (Days, Close) samples to a slope and an intercept. Least-squares optimality, and any claim that rising prices give a positive slope, are not modelled.
- Floating-point arithmetic is modelled with exact reals: rounding, signed zero and NaN propagation inside sums are not modelled.
- Rolling.VolatilityColumn: stores the sample variance rather than its square root, because Dafny's reals have no square root; the window, the backfill and the divisor n - 1 are modelled.
- `strftime` formatting of dates in the views and the forecast is not modelled. Dates stay day numbers, and NaT stays `None`.
- `float(p)` in the forecast is the identity on reals.
- Analysis.StockAnalysis.LoadAndCleanData: a failure after the table is assigned (a missing column raising part-way, `app.py:27-43`) would leave a partly processed table. Only a failure of `read_csv`, which leaves the old table, is modelled.
- Dates.SortByDate: pandas' default sort does not promise an order for rows that share a date. The model sorts stably, but no contract of the table operations promises a tie order.
- Analysis.StockAnalysis.GetPrevious7Days: when two rows share a date at the cut, which of them are returned is not stated, because pandas' tie order is unspecified; the contract states only that every copy of every strictly later row is returned.
- Logging (`print`) is left out.
- `generate_csv.py` is an HTTP fetch and an unsorted CSV dump, with no logic beyond I/O.
- Concurrency is out of scope. The source has no locking, and the model has a single sequential owner of the object.

### Where the code and its description differ

The model follows the code in each case.

- A line whose date does not parse is kept as NaT (`app.py:29`), not dropped. Only a missing Close removes a line (`app.py:38`).
- The date sort is not stable (`app.py:31`).
- A fetched document without "Time Series (Daily)" does not abort the refresh (`app.py:131-133`, `app.py:197-202`):
  - the file is left alone;
  - the table is still reloaded and the model retrained;
  - the reply still reports success.
- A load that fails part-way is not rolled back (`app.py:27`).
