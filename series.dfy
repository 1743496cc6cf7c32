/**
 * The price table: a line of the price file as read, the same line with
 * its cells coerced, and a row of the cleaned table with its derived
 * columns. Prepared states what loading a file leaves in the table.
 */
module Series {
  import opened Wrappers
  import opened Dates
  import opened Rolling

  /** A line of the price file as read: the text of each cell, None for an empty cell. */
  datatype Record = Record(
    date: Option<string>,
    open: Option<string>,
    high: Option<string>,
    low: Option<string>,
    close: Option<string>,
    volume: Option<string>)

  /**
   * to_datetime and to_numeric with errors='coerce': text to a day number
   * or to a number, None when the text does not parse.
   */
  datatype Parsers = Parsers(date: string -> Option<int>, number: string -> Option<real>)

  /** A line after coercion: every cell a value or NaN/NaT (None). */
  datatype RawRow = RawRow(
    date: Option<int>,
    open: Option<real>,
    high: Option<real>,
    low: Option<real>,
    close: Option<real>,
    volume: Option<real>)

  /**
   * A row of the cleaned table. Close is always present; variance is the
   * square of the Volatility column; days is the Days column, which only
   * training adds (None before that).
   */
  datatype Bar = Bar(
    date: Option<int>,
    open: Option<real>,
    high: Option<real>,
    low: Option<real>,
    close: real,
    volume: Option<real>,
    dailyReturn: Return,
    ma5: Option<real>,
    variance: Option<real>,
    days: Option<int>)

  function ParseCell<T>(cell: Option<string>, parse: string -> Option<T>): Option<T>
  {
    match cell
    case None => None
    case Some(text) => parse(text)
  }

  /** The Date cell through to_datetime, the five price cells through to_numeric. */
  function Coerce(rec: Record, p: Parsers): RawRow
  {
    RawRow(
      ParseCell(rec.date, p.date),
      ParseCell(rec.open, p.number),
      ParseCell(rec.high, p.number),
      ParseCell(rec.low, p.number),
      ParseCell(rec.close, p.number),
      ParseCell(rec.volume, p.number))
  }

  function CoerceAll(records: seq<Record>, p: Parsers): seq<RawRow>
  {
    seq(|records|, i requires 0 <= i < |records| => Coerce(records[i], p))
  }

  function RowDate(r: RawRow): Option<int> { r.date }

  function BarDate(b: Bar): Option<int> { b.date }

  /** A cleaned row's coerced cells, without the derived columns. */
  function Raw(b: Bar): RawRow
  {
    RawRow(b.date, b.open, b.high, b.low, Some(b.close), b.volume)
  }

  function Raws(bars: seq<Bar>): seq<RawRow>
  {
    seq(|bars|, i requires 0 <= i < |bars| => Raw(bars[i]))
  }

  function Closes(bars: seq<Bar>): seq<real>
  {
    seq(|bars|, i requires 0 <= i < |bars| => bars[i].close)
  }

  function DateColumn(bars: seq<Bar>): seq<Option<int>>
  {
    seq(|bars|, i requires 0 <= i < |bars| => bars[i].date)
  }

  /**
   * dropna(subset=['Close']): keeps exactly the rows that have a Close,
   * each as often as the input has it, and in the input's order.
   */
  function DropMissingClose(rows: seq<RawRow>): (kept: seq<RawRow>)
    ensures forall k :: 0 <= k < |kept| ==> kept[k].close.Some?
    ensures forall k :: 0 <= k < |kept| ==> kept[k] in rows
  {
    if rows == [] then []
    else
      var rest := DropMissingClose(rows[1..]);
      if rows[0].close.Some? then [rows[0]] + rest else rest
  }

  /** Dropping keeps each row that has a Close as often as the input has it, and no other row. */
  lemma {:induction false} DropCounts(rows: seq<RawRow>)
    ensures forall x :: multiset(DropMissingClose(rows))[x] == if x.close.Some? then multiset(rows)[x] else 0
  {
    if rows != [] {
      DropCounts(rows[1..]);
      assert rows == [rows[0]] + rows[1..];
    }
  }

  /** Dropping rows keeps the date order of the rows that remain. */
  lemma {:induction false} DropKeepsOrder(rows: seq<RawRow>)
    requires SortedByDate(rows, RowDate)
    ensures SortedByDate(DropMissingClose(rows), RowDate)
  {
    if rows != [] {
      DropKeepsOrder(rows[1..]);
      var rest := DropMissingClose(rows[1..]);
      if rows[0].close.Some? {
        forall k | 0 <= k < |rest|
          ensures DateLe(RowDate(rows[0]), RowDate(rest[k]))
        {
          assert rest[k] in rows[1..];
          var j :| 0 <= j < |rows| - 1 && rows[1..][j] == rest[k];
          assert rows[1 + j] == rest[k];
        }
        assert DropMissingClose(rows) == [rows[0]] + rest;
      }
    }
  }

  /** Every row's derived columns are what their definitions say, over the table's closes. */
  ghost predicate DerivedColumnsHold(bars: seq<Bar>)
  {
    var c := Closes(bars);
    forall i :: 0 <= i < |bars| ==>
      && bars[i].dailyReturn == DailyReturnAt(c, i)
      && bars[i].ma5 == MovingAverage5(c, i)
      && bars[i].variance == Volatility5(c, i)
  }

  /** Adds Daily Return, 5-Day MA and Volatility to rows that all have a Close. */
  function DeriveColumns(kept: seq<RawRow>): (bars: seq<Bar>)
    requires forall k :: 0 <= k < |kept| ==> kept[k].close.Some?
    ensures Raws(bars) == kept
    ensures DerivedColumnsHold(bars)
    ensures forall i :: 0 <= i < |bars| ==> bars[i].days.None?
  {
    var c := seq(|kept|, i requires 0 <= i < |kept| => kept[i].close.value);
    var ret := DailyReturnColumn(c);
    var ma := MovingAverageColumn(c);
    var vol := VolatilityColumn(c);
    var bars := seq(|kept|, i requires 0 <= i < |kept| =>
      Bar(kept[i].date, kept[i].open, kept[i].high, kept[i].low, c[i], kept[i].volume,
          ret[i], ma[i], vol[i], None));
    assert Closes(bars) == c;
    assert Raws(bars) == kept;
    bars
  }

  /**
   * What a successful load leaves in the table, given the file's lines:
   * rows in date order (NaT last), which are, up to the order of rows that
   * share a date, exactly the lines whose Close parses, each carrying its
   * derived columns and no Days column.
   */
  ghost predicate Prepared(records: seq<Record>, p: Parsers, bars: seq<Bar>)
  {
    && SortedByDate(bars, BarDate)
    && multiset(Raws(bars)) == multiset(DropMissingClose(CoerceAll(records, p)))
    && DerivedColumnsHold(bars)
    && forall i :: 0 <= i < |bars| ==> bars[i].days.None?
  }

  /** Sorting, then dropping rows without a Close, then deriving the columns, prepares the table. */
  lemma PipelinePrepares(records: seq<Record>, p: Parsers)
    ensures
      var sorted := SortByDate(CoerceAll(records, p), RowDate);
      var kept := DropMissingClose(sorted);
      Prepared(records, p, DeriveColumns(kept))
  {
    var rows := CoerceAll(records, p);
    var sorted := SortByDate(rows, RowDate);
    var kept := DropMissingClose(sorted);
    DropKeepsOrder(sorted);
    DerivedRowsKeepOrder(kept);
    DropIgnoresOrder(sorted, rows);
  }

  /** Deriving columns keeps the rows' dates, so it keeps their order. */
  lemma DerivedRowsKeepOrder(kept: seq<RawRow>)
    requires forall k :: 0 <= k < |kept| ==> kept[k].close.Some?
    requires SortedByDate(kept, RowDate)
    ensures SortedByDate(DeriveColumns(kept), BarDate)
  {
  }

  /** Dropping rows from two reorderings of a table leaves reorderings of each other. */
  lemma DropIgnoresOrder(a: seq<RawRow>, b: seq<RawRow>)
    requires multiset(a) == multiset(b)
    ensures multiset(DropMissingClose(a)) == multiset(DropMissingClose(b))
  {
    var da := DropMissingClose(a);
    var db := DropMissingClose(b);
    DropCounts(a);
    DropCounts(b);
    forall x
      ensures multiset(da)[x] == multiset(db)[x]
    {
    }
  }

  /**
   * A row of a loaded table comes from a line of the file whose Close
   * parsed to that row's Close and whose Date coerced to that row's Date:
   * a line with an unparseable Close is never in the table.
   */
  lemma {:induction false} PreparedRowsComeFromLines(records: seq<Record>, p: Parsers, bars: seq<Bar>)
    requires Prepared(records, p, bars)
    ensures |bars| == |DropMissingClose(CoerceAll(records, p))|
    ensures forall i :: 0 <= i < |bars| ==> exists j :: (0 <= j < |records| &&
      ParseCell(records[j].close, p.number) == Some(bars[i].close) &&
      ParseCell(records[j].date, p.date) == bars[i].date)
  {
    var dropped := DropMissingClose(CoerceAll(records, p));
    assert |multiset(Raws(bars))| == |multiset(dropped)|;
    forall i | 0 <= i < |bars|
      ensures exists j :: (0 <= j < |records| &&
        ParseCell(records[j].close, p.number) == Some(bars[i].close) &&
        ParseCell(records[j].date, p.date) == bars[i].date)
    {
      var r := Raws(bars)[i];
      assert r in multiset(Raws(bars));
      assert r in dropped;
      var k :| 0 <= k < |dropped| && dropped[k] == r;
      assert r in CoerceAll(records, p);
      var j :| 0 <= j < |records| && CoerceAll(records, p)[j] == r;
      assert Coerce(records[j], p) == r;
    }
  }
}
