/**
 * The analysis object: the price table (df) and the fitted trend line
 * (model), the operations that replace them (load, train) and the
 * read-only views built from them (forecast, chart data, last 7 days).
 */
module Analysis {
  import opened Wrappers
  import opened Dates
  import opened Series

  /**
   * The model field once set: a LinearRegression whose fit did not complete
   * (Unfitted), or the fitted line close = slope * days + intercept.
   */
  datatype Model = Unfitted | Fitted(slope: real, intercept: real)

  /** LinearRegression().fit over (Days, Close) samples, as an opaque function. */
  type Fitter = seq<(int, real)> -> (real, real)

  // ---------------------------------------------------------------- training

  function DaysSince(date: Option<int>, first: Option<int>): Option<int>
  {
    if date.Some? && first.Some? then Some(date.value - first.value) else None
  }

  /**
   * The table with its Days column: whole days since the earliest date,
   * NaN for a row whose date is NaT.
   */
  function WithDays(bars: seq<Bar>): (r: seq<Bar>)
    ensures |r| == |bars|
    ensures forall i :: 0 <= i < |r| ==> r[i] == bars[i].(days := r[i].days)
    ensures forall i :: 0 <= i < |r| ==> (r[i].days.Some? <==> bars[i].date.Some?)
    ensures forall i :: 0 <= i < |r| && r[i].days.Some? ==> r[i].days.value >= 0
    ensures forall i, j :: 0 <= i < |r| && 0 <= j < |r| && r[i].days.Some? && r[j].days.Some? ==>
      r[j].days.value - r[i].days.value == bars[j].date.value - bars[i].date.value
    ensures (exists i :: 0 <= i < |bars| && bars[i].date.Some?) ==>
      exists i :: 0 <= i < |r| && r[i].days == Some(0)
  {
    var ds := DateColumn(bars);
    var first := MinDate(ds);
    assert forall i :: 0 <= i < |bars| ==> ds[i] == bars[i].date;
    var r := seq(|bars|, i requires 0 <= i < |bars| => bars[i].(days := DaysSince(bars[i].date, first)));
    if exists i :: 0 <= i < |bars| && bars[i].date.Some? then
      var k :| 0 <= k < |ds| && ds[k] == first;
      assert r[k].days == Some(0);
      r
    else r
  }

  /** Every row has a Days value, so the regression input has no NaN. */
  predicate AllDaysKnown(bars: seq<Bar>)
  {
    forall i :: 0 <= i < |bars| ==> bars[i].days.Some?
  }

  /** The regression samples: X = Days, y = Close, one per row in table order. */
  function Samples(bars: seq<Bar>): seq<(int, real)>
    requires AllDaysKnown(bars)
  {
    seq(|bars|, i requires 0 <= i < |bars| => (bars[i].days.value, bars[i].close))
  }

  /** The table after training: unchanged when missing or empty, otherwise with Days. */
  function TrainedTable(df: Option<seq<Bar>>): Option<seq<Bar>>
  {
    if df.None? || |df.value| == 0 then df else Some(WithDays(df.value))
  }

  /**
   * The model after training: unchanged when the table is missing or
   * empty; otherwise a new LinearRegression, fitted when every row has a
   * Days value and left unfitted when fit rejects a NaN.
   */
  function TrainedModel(df: Option<seq<Bar>>, model: Option<Model>, fit: Fitter): Option<Model>
  {
    if df.None? || |df.value| == 0 then model
    else
      var table := WithDays(df.value);
      if AllDaysKnown(table) then Some(Fitted(fit(Samples(table)).0, fit(Samples(table)).1))
      else Some(Unfitted)
  }

  /**
   * Training twice on an unchanged table gives the same table and the same
   * model as training once.
   */
  lemma {:induction false} RetrainIsIdempotent(df: Option<seq<Bar>>, model: Option<Model>, fit: Fitter)
    ensures TrainedTable(TrainedTable(df)) == TrainedTable(df)
    ensures TrainedModel(TrainedTable(df), TrainedModel(df, model, fit), fit) == TrainedModel(df, model, fit)
  {
    if df.Some? && |df.value| > 0 {
      var once := WithDays(df.value);
      assert DateColumn(once) == DateColumn(df.value);
      assert WithDays(once) == once;
    }
  }

  /** In a date-sorted table whose first row has a date, that row is day 0. */
  lemma EarliestRowIsDayZero(bars: seq<Bar>)
    requires SortedByDate(bars, BarDate)
    requires |bars| > 0 && bars[0].date.Some?
    ensures WithDays(bars)[0].days == Some(0)
  {
  }

  // ---------------------------------------------------------------- forecasting

  datatype ForecastPoint = ForecastPoint(date: int, price: real)

  /**
   * The n calendar days after last, each priced on the fitted line at its
   * offset from first.
   */
  function Forecast(first: int, last: int, slope: real, intercept: real, n: nat): seq<ForecastPoint>
  {
    seq(n, i requires 0 <= i < n =>
      var d := last + 1 + i;
      ForecastPoint(d, slope * ((d - first) as real) + intercept))
  }

  /**
   * A forecast has one point per requested day, starting the day after the
   * last date and going up one day at a time, each priced on the line at
   * (last - first) + 1 + i days.
   */
  lemma ForecastCalendar(first: int, last: int, slope: real, intercept: real, n: nat)
    ensures var r := Forecast(first, last, slope, intercept, n);
      && |r| == n
      && (n > 0 ==> r[0].date == last + 1)
      && (forall i :: 0 <= i < n - 1 ==> r[i + 1].date == r[i].date + 1)
      && (forall i :: 0 <= i < n ==> r[i].price == slope * (((last - first) + 1 + i) as real) + intercept)
  {
  }

  /** With a positive slope the forecast prices rise strictly; with a negative one they fall. */
  lemma {:induction false} ForecastFollowsSlope(first: int, last: int, slope: real, intercept: real, n: nat)
    ensures var r := Forecast(first, last, slope, intercept, n);
      && (slope > 0.0 ==> forall i, j :: 0 <= i < j < n ==> r[i].price < r[j].price)
      && (slope < 0.0 ==> forall i, j :: 0 <= i < j < n ==> r[i].price > r[j].price)
  {
    var r := Forecast(first, last, slope, intercept, n);
    forall i, j | 0 <= i < j < n
      ensures slope > 0.0 ==> r[i].price < r[j].price
      ensures slope < 0.0 ==> r[i].price > r[j].price
    {
      var di := ((last + 1 + i - first) as real);
      var dj := ((last + 1 + j - first) as real);
      assert r[i].price == slope * di + intercept;
      assert r[j].price == slope * dj + intercept;
      LineFollowsSlope(slope, intercept, di, dj);
    }
  }

  /** A line rises between two offsets when its slope is positive and falls when it is negative. */
  lemma LineFollowsSlope(slope: real, intercept: real, x: real, y: real)
    requires x < y
    ensures slope > 0.0 ==> slope * x + intercept < slope * y + intercept
    ensures slope < 0.0 ==> slope * x + intercept > slope * y + intercept
  {
    assert slope * y - slope * x == slope * (y - x);
    if slope > 0.0 {
      assert slope * (y - x) > 0.0;
    } else if slope < 0.0 {
      assert slope * (y - x) < 0.0;
    }
  }

  /** With a max date of 2024-01-10 (day 19732) a 7-day forecast covers 2024-01-11 to 2024-01-17. */
  lemma SevenDayForecastExample(first: int, slope: real, intercept: real)
    ensures var r := Forecast(first, 19732, slope, intercept, 7);
      |r| == 7 && r[0].date == 19733 && r[6].date == 19739
  {
  }

  // ---------------------------------------------------------------- read-only views

  /** A chart record: Date, Close and 5-Day MA. */
  datatype ChartPoint = ChartPoint(date: Option<int>, close: real, ma5: Option<real>)

  /** A recent-days record: Date and Close. */
  datatype RecentPoint = RecentPoint(date: Option<int>, close: real)

  /** How many rows the recent-days view returns at most. */
  const RecentDays: nat := 7

  function ChartOf(b: Bar): ChartPoint { ChartPoint(b.date, b.close, b.ma5) }

  function RecentOf(b: Bar): RecentPoint { RecentPoint(b.date, b.close) }

  function RecentDate(p: RecentPoint): Option<int> { p.date }

  function ChartDate(p: ChartPoint): Option<int> { p.date }

  function Recents(bars: seq<Bar>): seq<RecentPoint>
  {
    seq(|bars|, i requires 0 <= i < |bars| => RecentOf(bars[i]))
  }

  function ChartCloses(points: seq<ChartPoint>): seq<real>
  {
    seq(|points|, i requires 0 <= i < |points| => points[i].close)
  }

  // ---------------------------------------------------------------- the object

  /**
   * What loading leaves in the table: the previous table when the file
   * could not be read, otherwise a table prepared from the file's lines.
   */
  ghost predicate Loaded(before: Option<seq<Bar>>, table: Option<seq<Record>>, p: Parsers,
                         after: Option<seq<Bar>>)
  {
    if table.None? then after == before
    else after.Some? && Prepared(table.value, p, after.value)
  }

  class StockAnalysis {
    var df: Option<seq<Bar>>
    var model: Option<Model>

    constructor ()
      ensures df == None && model == None
    {
      df := None;
      model := None;
    }

    /**
     * Replaces the table with the file's lines, coerced, sorted by date,
     * without the lines that have no Close, and with the derived columns.
     * A file that cannot be read (table is None) leaves the old table.
     * The model is not touched.
     */
    method LoadAndCleanData(table: Option<seq<Record>>, parse: Parsers)
      modifies this
      ensures Loaded(old(df), table, parse, df)
      ensures model == old(model)
    {
      if table.None? {
        return;
      }
      var rows := CoerceAll(table.value, parse);
      rows := SortByDate(rows, RowDate);
      rows := DropMissingClose(rows);
      df := Some(DeriveColumns(rows));
      PipelinePrepares(table.value, parse);
    }

    /**
     * Adds the Days column and fits the model on (Days, Close). A missing
     * or empty table leaves both fields as they were.
     */
    method TrainModel(fit: Fitter)
      modifies this
      ensures df == TrainedTable(old(df))
      ensures model == TrainedModel(old(df), old(model), fit)
    {
      if df.None? || |df.value| == 0 {
        return;
      }
      var table := WithDays(df.value);
      df := Some(table);
      model := Some(Unfitted);
      if AllDaysKnown(table) {
        var (slope, intercept) := fit(Samples(table));
        model := Some(Fitted(slope, intercept));
      }
    }

    /** A fitted model and at least one row with a real date. */
    predicate CanForecast()
      reads this
    {
      model.Some? && model.value.Fitted? && df.Some? && MaxDate(DateColumn(df.value)).Some?
    }

    /**
     * The next daysAhead calendar days after the latest date, each priced
     * by the model at its offset from the earliest date; nothing when
     * there is no fitted model, no dated row, or daysAhead is not positive.
     */
    function PredictFuturePrices(daysAhead: int): (r: seq<ForecastPoint>)
      reads this
      ensures !CanForecast() || daysAhead <= 0 ==> r == []
      ensures CanForecast() && daysAhead > 0 ==>
        var ds := DateColumn(df.value);
        && MinDate(ds).Some?
        && r == Forecast(MinDate(ds).value, MaxDate(ds).value,
                         model.value.slope, model.value.intercept, daysAhead)
    {
      if !CanForecast() || daysAhead <= 0 then []
      else
        var ds := DateColumn(df.value);
        var last := MaxDate(ds);
        var first := MinDate(ds);
        assert first.Some?;
        Forecast(first.value, last.value, model.value.slope, model.value.intercept, daysAhead)
    }

    /** Date, Close and 5-Day MA of every row, in table order. */
    function GetHistoricalData(): (r: seq<ChartPoint>)
      reads this
      ensures df.None? ==> r == []
      ensures df.Some? ==> |r| == |df.value| && forall i :: 0 <= i < |r| ==> r[i] == ChartOf(df.value[i])
    {
      if df.None? || |df.value| == 0 then []
      else
        var t := df.value;
        seq(|t|, i requires 0 <= i < |t| => ChartOf(t[i]))
    }

    /**
     * Date and Close of the last min(7, n) rows of the table sorted by
     * date, ascending: records of the table's own rows, none used twice,
     * and every copy of every row later than a returned one among them. When no
     * two rows share a date these are exactly the table's last rows.
     */
    function GetPrevious7Days(): (r: seq<RecentPoint>)
      reads this
      ensures df.None? ==> r == []
      ensures df.Some? ==> |r| == if |df.value| < RecentDays then |df.value| else RecentDays
      ensures SortedByDate(r, RecentDate)
      ensures df.Some? ==> multiset(r) <= multiset(Recents(df.value))
      ensures df.Some? ==> forall k, i ::
        0 <= k < |r| && 0 <= i < |df.value| && DateLt(r[k].date, df.value[i].date) ==>
        multiset(r)[RecentOf(df.value[i])] == multiset(Recents(df.value))[RecentOf(df.value[i])]
      ensures df.Some? && StrictlySortedByDate(df.value, BarDate) ==>
        r == Recents(df.value[|df.value| - |r|..])
    {
      if df.None? || |df.value| == 0 then []
      else
        var t := df.value;
        var n := if |t| < RecentDays then |t| else RecentDays;
        var sorted := SortByDate(t, BarDate);
        LatestRowsAreRows(sorted, t, n);
        LatestRowsHaveLaterRows(sorted, t, n);
        SuffixKeepsOrder(sorted, n);
        assert StrictlySortedByDate(t, BarDate) ==> sorted == t by {
          if StrictlySortedByDate(t, BarDate) {
            SortSortedIsIdentity(t, BarDate);
          }
        }
        Recents(sorted[|t| - n..])
    }
  }

  /** The records of a concatenation are the records of its parts, concatenated. */
  lemma RecentsAppend(x: seq<Bar>, y: seq<Bar>)
    ensures Recents(x + y) == Recents(x) + Recents(y)
  {
  }

  /** Reordering the rows reorders their records: the same records, as often. */
  lemma {:induction false} RecentsOfReordering(a: seq<Bar>, b: seq<Bar>)
    requires multiset(a) == multiset(b)
    ensures multiset(Recents(a)) == multiset(Recents(b))
  {
    if a != [] {
      var j := IndexOf(a[0], b);
      var rest := b[..j] + b[j + 1..];
      var tail := a[1..];
      Without(a, 0, tail);
      Without(b, j, rest);
      RecentsOfReordering(tail, rest);
    }
  }

  /** A position of x in b, when b holds x. */
  lemma IndexOf(x: Bar, b: seq<Bar>) returns (j: nat)
    requires x in multiset(b)
    ensures j < |b| && b[j] == x
  {
    j :| 0 <= j < |b| && b[j] == x;
  }

  /**
   * Taking row j out of b takes one copy of that row out of b's rows and
   * one copy of its record out of b's records.
   */
  lemma Without(b: seq<Bar>, j: nat, rest: seq<Bar>)
    requires j < |b| && rest == b[..j] + b[j + 1..]
    ensures multiset(rest) == multiset(b) - multiset{b[j]}
    ensures multiset(Recents(b)) == multiset(Recents(rest)) + multiset{RecentOf(b[j])}
  {
    var front, back := b[..j], b[j + 1..];
    assert b == front + [b[j]] + back;
    assert Recents(b) == Recents(front) + [RecentOf(b[j])] + Recents(back);
    RecentsAppend(front, back);
  }

  /** The records of the last n rows of a reordering of t are records of t's rows, none used twice. */
  lemma LatestRowsAreRows(sorted: seq<Bar>, t: seq<Bar>, n: nat)
    requires multiset(sorted) == multiset(t) && n <= |sorted|
    ensures multiset(Recents(sorted[|sorted| - n..])) <= multiset(Recents(t))
  {
    var m := |sorted| - n;
    assert sorted == sorted[..m] + sorted[m..];
    RecentsAppend(sorted[..m], sorted[m..]);
    RecentsOfReordering(sorted, t);
  }

  /**
   * Among the last n rows of a date-sorted reordering of t is every copy
   * of every row of t dated strictly later than one of them.
   */
  lemma LatestRowsHaveLaterRows(sorted: seq<Bar>, t: seq<Bar>, n: nat)
    requires multiset(sorted) == multiset(t) && SortedByDate(sorted, BarDate) && n <= |sorted|
    ensures var r := Recents(sorted[|sorted| - n..]);
      forall k, i :: 0 <= k < |r| && 0 <= i < |t| && DateLt(r[k].date, t[i].date) ==>
        multiset(r)[RecentOf(t[i])] == multiset(Recents(t))[RecentOf(t[i])]
  {
    var m := |sorted| - n;
    var front := Recents(sorted[..m]);
    var r := Recents(sorted[m..]);
    assert multiset(Recents(t)) == multiset(front) + multiset(r) by {
      assert sorted == sorted[..m] + sorted[m..];
      RecentsAppend(sorted[..m], sorted[m..]);
      RecentsOfReordering(sorted, t);
    }
    forall k, i | 0 <= k < |r| && 0 <= i < |t| && DateLt(r[k].date, t[i].date)
      ensures multiset(r)[RecentOf(t[i])] == multiset(Recents(t))[RecentOf(t[i])]
    {
      var rx := RecentOf(t[i]);
      assert r[k].date == BarDate(sorted[m + k]);
      EarlierRowsAreNotLater(sorted, BarDate, m + k, rx.date);
      assert forall q :: 0 <= q < m ==> front[q].date == sorted[q].date;
      assert rx !in front;
    }
  }

  /** A suffix of a date-sorted table is date-sorted. */
  lemma SuffixKeepsOrder(sorted: seq<Bar>, n: nat)
    requires SortedByDate(sorted, BarDate) && n <= |sorted|
    ensures SortedByDate(Recents(sorted[|sorted| - n..]), RecentDate)
  {
  }

  /**
   * The forecast starts after the history: every forecast date is later
   * than every real date in the table.
   */
  lemma ForecastIsAfterHistory(a: StockAnalysis, daysAhead: int)
    ensures var r := a.PredictFuturePrices(daysAhead);
      forall k, i :: 0 <= k < |r| && 0 <= i < |a.df.value| && a.df.value[i].date.Some? ==>
        r[k].date > a.df.value[i].date.value
  {
    var r := a.PredictFuturePrices(daysAhead);
    if |r| > 0 {
      var ds := DateColumn(a.df.value);
      assert forall i :: 0 <= i < |a.df.value| ==> ds[i] == a.df.value[i].date;
    }
  }

  /**
   * What every table the object holds satisfies: rows in date order, and
   * the Daily Return, 5-Day MA and Volatility of each row computed from
   * the Close column as it stands.
   */
  ghost predicate Served(df: Option<seq<Bar>>)
  {
    df.Some? ==> SortedByDate(df.value, BarDate) && DerivedColumnsHold(df.value)
  }

  /** A load leaves a served table when it found one: the new table is prepared, or the old one stays. */
  lemma LoadKeepsServed(before: Option<seq<Bar>>, table: Option<seq<Record>>, p: Parsers,
                        after: Option<seq<Bar>>)
    requires Loaded(before, table, p, after) && Served(before)
    ensures Served(after)
  {
  }

  /** Training adds only the Days column, so the dates and closes, and what they fix, stay. */
  lemma TrainingKeepsServed(df: Option<seq<Bar>>)
    requires Served(df)
    ensures Served(TrainedTable(df))
  {
    if df.Some? && |df.value| > 0 {
      var t := WithDays(df.value);
      assert Closes(t) == Closes(df.value);
      forall i, j | 0 <= i < j < |t|
        ensures DateLe(BarDate(t[i]), BarDate(t[j]))
      {
        assert BarDate(t[i]) == BarDate(df.value[i]);
        assert BarDate(t[j]) == BarDate(df.value[j]);
      }
    }
  }

  /**
   * While the table is served, the chart data is in date order and each
   * record's 5-Day MA is the 5-row mean of the chart's own closes,
   * backfilled.
   */
  lemma ChartOfServedTable(a: StockAnalysis)
    requires Served(a.df)
    ensures var r := a.GetHistoricalData();
      && SortedByDate(r, ChartDate)
      && forall i :: 0 <= i < |r| ==> r[i].ma5 == Rolling.MovingAverage5(ChartCloses(r), i)
  {
    var r := a.GetHistoricalData();
    if a.df.Some? {
      assert ChartCloses(r) == Closes(a.df.value);
      forall i, j | 0 <= i < j < |r|
        ensures DateLe(ChartDate(r[i]), ChartDate(r[j]))
      {
        assert DateLe(BarDate(a.df.value[i]), BarDate(a.df.value[j]));
      }
    }
  }
}
