/**
 * Writing the fetched daily series to the price file: a header, then one
 * row per date key in ascending key order. The fetched document is a JSON
 * value; the file is its sequence of rows of cell values (the text the csv
 * writer makes of them is not modelled).
 */
module Export {
  import opened Wrappers

  /** A parsed JSON document; an object is a Python dict. */
  datatype Json =
    | JNull
    | JBool(b: bool)
    | JNumber(n: real)
    | JString(s: string)
    | JArray(items: seq<Json>)
    | JObject(fields: map<string, Json>)

  /** Python truthiness of a parsed document. */
  predicate Truthy(j: Json)
  {
    match j
    case JNull => false
    case JBool(b) => b
    case JNumber(n) => n != 0.0
    case JString(s) => |s| > 0
    case JArray(items) => |items| > 0
    case JObject(fields) => |fields| > 0
  }

  type CsvRow = seq<Json>
  type CsvFile = seq<CsvRow>

  const TimeSeriesKey: string := "Time Series (Daily)"

  const Header: CsvRow :=
    [JString("Date"), JString("Open"), JString("High"), JString("Low"), JString("Close"), JString("Volume")]

  /** The keys of one day's bar, in the order the row lists them. */
  const BarFields: seq<string> := ["1. open", "2. high", "3. low", "4. close", "5. volume"]

  // ---------------------------------------------------------------- key order

  /** Python's string order: code point by code point, a proper prefix first. */
  predicate LexLess(a: string, b: string)
    decreases |a|
  {
    |b| > 0 && (|a| == 0 || a[0] < b[0] || (a[0] == b[0] && LexLess(a[1..], b[1..])))
  }

  lemma {:induction false} LexIrreflexive(a: string)
    ensures !LexLess(a, a)
    decreases |a|
  {
    if |a| > 0 {
      LexIrreflexive(a[1..]);
    }
  }

  lemma {:induction false} LexTransitive(a: string, b: string, c: string)
    requires LexLess(a, b) && LexLess(b, c)
    ensures LexLess(a, c)
    decreases |a|
  {
    if |a| > 0 && a[0] == b[0] && b[0] == c[0] {
      LexTransitive(a[1..], b[1..], c[1..]);
    }
  }

  lemma {:induction false} LexTotal(a: string, b: string)
    ensures a == b || LexLess(a, b) || LexLess(b, a)
    decreases |a|
  {
    if |a| > 0 && |b| > 0 && a[0] == b[0] {
      LexTotal(a[1..], b[1..]);
      if a[1..] == b[1..] {
        assert a == [a[0]] + a[1..] && b == [b[0]] + b[1..];
      }
    }
  }

  predicate IsLeast(m: string, ks: set<string>)
  {
    m in ks && forall k :: k in ks && k != m ==> LexLess(m, k)
  }

  /** A non-empty set of keys has exactly one least key. */
  lemma {:induction false} LeastKey(ks: set<string>)
    requires ks != {}
    ensures exists m :: IsLeast(m, ks)
    ensures forall m, m' :: IsLeast(m, ks) && IsLeast(m', ks) ==> m == m'
  {
    var x :| x in ks;
    if ks == {x} {
      assert IsLeast(x, ks);
    } else {
      LeastKey(ks - {x});
      var m :| IsLeast(m, ks - {x});
      LexTotal(m, x);
      if LexLess(m, x) {
        assert IsLeast(m, ks);
      } else {
        forall k | k in ks && k != x
          ensures LexLess(x, k)
        {
          if k != m {
            LexTransitive(x, m, k);
          }
        }
        assert IsLeast(x, ks);
      }
    }
    forall m, m' | IsLeast(m, ks) && IsLeast(m', ks)
      ensures m == m'
    {
      if m != m' {
        LexTransitive(m, m', m);
        LexIrreflexive(m);
      }
    }
  }

  /** sorted(keys): every key once, in strictly ascending order. */
  function SortedKeys(ks: set<string>): (r: seq<string>)
    ensures |r| == |ks|
    ensures forall k :: k in r <==> k in ks
    ensures forall i, j :: 0 <= i < j < |r| ==> LexLess(r[i], r[j])
  {
    if ks == {} then []
    else
      LeastKey(ks);
      var m :| IsLeast(m, ks);
      var rest := SortedKeys(ks - {m});
      assert forall j :: 0 <= j < |rest| ==> rest[j] in ks - {m};
      [m] + rest
  }

  // ---------------------------------------------------------------- rows

  /** A bar object that has all five keys, so that its row can be built. */
  predicate WellFormedBar(bar: Json)
  {
    bar.JObject? && forall k :: k in BarFields ==> k in bar.fields
  }

  /** The bar's open, high, low, close and volume, in that order. */
  function BarCells(bar: Json): (cells: seq<Json>)
    requires WellFormedBar(bar)
    ensures |cells| == |BarFields|
  {
    seq(|BarFields|, i requires 0 <= i < |BarFields| => bar.fields[BarFields[i]])
  }

  /**
   * The row written for one date: the date, then the bar's cells. None
   * when building it raises: the bar is not an object (TypeError) or lacks
   * one of the five keys (KeyError).
   */
  function RowFor(date: string, bar: Json): Option<CsvRow>
  {
    if WellFormedBar(bar) then Some([JString(date)] + BarCells(bar)) else None
  }

  /**
   * The rows written for keys taken in order: a row for each key up to the
   * first one whose row cannot be built, where the writing stops.
   */
  function DataRows(keys: seq<string>, ts: map<string, Json>): (rows: seq<CsvRow>)
    requires forall k :: k in keys ==> k in ts
    ensures |rows| <= |keys|
    ensures forall i :: 0 <= i < |rows| ==> RowFor(keys[i], ts[keys[i]]) == Some(rows[i])
    ensures |rows| < |keys| ==> RowFor(keys[|rows|], ts[keys[|rows|]]).None?
  {
    if keys == [] then []
    else
      match RowFor(keys[0], ts[keys[0]])
      case None => []
      case Some(row) =>
        var rest := DataRows(keys[1..], ts);
        assert forall i :: 0 < i <= |rest| ==> keys[i] == keys[1..][i - 1];
        [row] + rest
  }

  /** The rows written from a daily series, in ascending key order. */
  function SeriesRows(ts: map<string, Json>): seq<CsvRow>
  {
    DataRows(SortedKeys(ts.Keys), ts)
  }

  /** The file written from a daily series: the header, then the rows. */
  function SeriesFile(ts: map<string, Json>): CsvFile
  {
    [Header] + SeriesRows(ts)
  }

  /**
   * The file after save_daily_to_csv, None when it is left untouched: the
   * document is not an object or has no daily series. Otherwise the file is
   * rewritten: a daily series that is not an object leaves the header alone.
   */
  function CsvWrite(data: Json): Option<CsvFile>
  {
    if !data.JObject? || TimeSeriesKey !in data.fields then None
    else
      var series := data.fields[TimeSeriesKey];
      if series.JObject? then Some(SeriesFile(series.fields)) else Some([Header])
  }

  /** The date a written row starts with. */
  function RowKey(row: CsvRow): string
  {
    if |row| > 0 && row[0].JString? then row[0].s else ""
  }

  /** Row i written for a list of keys starts with key i. */
  lemma RowsOfKeys(keys: seq<string>, ts: map<string, Json>)
    requires forall k :: k in keys ==> k in ts
    ensures var rows := DataRows(keys, ts);
      forall i :: 0 <= i < |rows| ==> RowKey(rows[i]) == keys[i]
  {
    var rows := DataRows(keys, ts);
    forall i | 0 <= i < |rows|
      ensures RowKey(rows[i]) == keys[i]
    {
      assert RowFor(keys[i], ts[keys[i]]) == Some(rows[i]);
    }
  }

  /** With every bar well formed, writing never stops early. */
  lemma AllRowsWritten(keys: seq<string>, ts: map<string, Json>)
    requires forall k :: k in keys ==> k in ts && WellFormedBar(ts[k])
    ensures |DataRows(keys, ts)| == |keys|
  {
  }

  /** Each row written from a daily series is a date key of the series followed by that date's cells. */
  lemma {:induction false} SeriesRowsContents(ts: map<string, Json>)
    ensures var rows := SeriesRows(ts);
      forall i :: 0 <= i < |rows| ==>
        RowKey(rows[i]) in ts && RowFor(RowKey(rows[i]), ts[RowKey(rows[i])]) == Some(rows[i])
  {
    var keys := SortedKeys(ts.Keys);
    RowsOfKeys(keys, ts);
    assert forall i :: 0 <= i < |keys| ==> keys[i] in keys;
  }

  /** The date keys of the rows written from a daily series strictly ascend. */
  lemma {:induction false} SeriesRowsAscend(ts: map<string, Json>)
    ensures var rows := SeriesRows(ts);
      forall i, j :: 0 <= i < j < |rows| ==> LexLess(RowKey(rows[i]), RowKey(rows[j]))
  {
    RowsOfKeys(SortedKeys(ts.Keys), ts);
  }

  /** When every bar of the series is well formed, every date key gets exactly one row. */
  lemma {:induction false} SeriesRowsComplete(ts: map<string, Json>)
    requires forall k :: k in ts ==> WellFormedBar(ts[k])
    ensures var rows := SeriesRows(ts);
      && |rows| == |ts|
      && forall k :: k in ts ==> exists i :: 0 <= i < |rows| && RowKey(rows[i]) == k
  {
    var keys := SortedKeys(ts.Keys);
    var rows := SeriesRows(ts);
    AllRowsWritten(keys, ts);
    RowsOfKeys(keys, ts);
    assert |rows| == |keys| == |ts.Keys| == |ts|;
    forall k | k in ts
      ensures exists i :: 0 <= i < |rows| && RowKey(rows[i]) == k
    {
      assert k in keys;
      var j :| 0 <= j < |keys| && keys[j] == k;
      assert RowKey(rows[j]) == k;
    }
  }

  /** Without a daily series, or for a document that is not an object, the file is not touched. */
  lemma NoSeriesNoWrite(data: Json)
    requires !data.JObject? || TimeSeriesKey !in data.fields
    ensures CsvWrite(data).None?
  {
  }

  // ---------------------------------------------------------------- the writer

  /**
   * The loop of save_daily_to_csv: one row per date key in ascending order,
   * stopping at the first row that cannot be built.
   */
  method WriteRows(keys: seq<string>, ts: map<string, Json>) returns (body: seq<CsvRow>)
    requires forall k :: k in keys ==> k in ts
    ensures body == DataRows(keys, ts)
  {
    ghost var rows := DataRows(keys, ts);
    body := [];
    var i := 0;
    while i < |keys|
      invariant i <= |rows|
      invariant body == rows[..i]
    {
      var row := RowFor(keys[i], ts[keys[i]]);
      if row.None? {
        break;
      }
      assert i < |rows| && rows[i] == row.value;
      assert rows[..i + 1] == rows[..i] + [rows[i]];
      body := body + [row.value];
      i := i + 1;
    }
    assert body == rows;
  }

  /**
   * save_daily_to_csv: returns the new file contents, or None when the
   * file is left as it was. Opens (truncates) the file, writes the header,
   * then writes the rows; what was written before a row that cannot be
   * built stays written.
   */
  method SaveDailyToCsv(data: Json) returns (written: Option<CsvFile>)
    ensures written == CsvWrite(data)
  {
    if !data.JObject? || TimeSeriesKey !in data.fields {
      return None;
    }
    var series := data.fields[TimeSeriesKey];
    var lines: CsvFile := [Header];
    if !series.JObject? {
      return Some(lines);
    }
    var body := WriteRows(SortedKeys(series.fields.Keys), series.fields);
    return Some(lines + body);
  }
}
