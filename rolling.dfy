/**
 * The three columns derived from Close when the table is loaded:
 * Daily Return (pct_change, with NaN filled by 0), the 5-Day MA (a rolling
 * mean over 5 rows, backfilled) and Volatility (a rolling sample deviation
 * over the same 5 rows, backfilled). Each column is written the way pandas
 * computes it and proved equal to a direct definition of what it means.
 */
module Rolling {
  import opened Wrappers

  /** The rolling window length, in rows. */
  const Window: nat := 5

  // ---------------------------------------------------------------- Daily Return

  /** A float quotient: finite, or an infinity from dividing by zero. */
  datatype Return = Finite(value: real) | PosInf | NegInf

  /** x / prev - 1 as floating point evaluates it; None is NaN (0 / 0). */
  function Ratio(x: real, prev: real): Option<Return>
  {
    if prev != 0.0 then Some(Finite(x / prev - 1.0))
    else if x > 0.0 then Some(PosInf)
    else if x < 0.0 then Some(NegInf)
    else None
  }

  /** pct_change(): NaN for the first row, then each close against the one before. */
  function PctChange(c: seq<real>): seq<Option<Return>>
  {
    seq(|c|, i requires 0 <= i < |c| => if i == 0 then None else Ratio(c[i], c[i - 1]))
  }

  /** fillna(0) */
  function FillZero(s: seq<Option<Return>>): seq<Return>
  {
    seq(|s|, i requires 0 <= i < |s| => if s[i].Some? then s[i].value else Finite(0.0))
  }

  /**
   * What the Daily Return of row i means: 0 for the first row, otherwise
   * the relative change from the previous close; a previous close of 0
   * gives an infinity of the new close's sign, or 0 when both are 0.
   */
  function DailyReturnAt(c: seq<real>, i: nat): Return
    requires i < |c|
  {
    if i == 0 then Finite(0.0)
    else if c[i - 1] != 0.0 then Finite((c[i] - c[i - 1]) / c[i - 1])
    else if c[i] == 0.0 then Finite(0.0)
    else if c[i] > 0.0 then PosInf
    else NegInf
  }

  /** The Daily Return column: pct_change().fillna(0). */
  function DailyReturnColumn(c: seq<real>): (r: seq<Return>)
    ensures |r| == |c|
    ensures forall i :: 0 <= i < |c| ==> r[i] == DailyReturnAt(c, i)
  {
    var r := FillZero(PctChange(c));
    assert forall i :: 0 <= i < |c| ==> r[i] == DailyReturnAt(c, i) by {
      forall i | 0 <= i < |c| {
        PandasReturnAt(c, i);
      }
    }
    r
  }

  lemma PandasReturnAt(c: seq<real>, i: nat)
    requires i < |c|
    ensures FillZero(PctChange(c))[i] == DailyReturnAt(c, i)
  {
    if i > 0 && c[i - 1] != 0.0 {
      QuotientLessOne(c[i], c[i - 1]);
    }
  }

  /** pandas' x / prev - 1 is the relative change (x - prev) / prev. */
  lemma QuotientLessOne(x: real, prev: real)
    requires prev != 0.0
    ensures x / prev - 1.0 == (x - prev) / prev
  {
    assert (x - prev) / prev == x / prev - prev / prev;
  }

  // ---------------------------------------------------------------- windows

  function Sum(w: seq<real>): real
  {
    if w == [] then 0.0 else w[0] + Sum(w[1..])
  }

  function Mean(w: seq<real>): real
    requires |w| > 0
  {
    Sum(w) / (|w| as real)
  }

  function SquaredDeviations(w: seq<real>, mu: real): real
  {
    if w == [] then 0.0 else (w[0] - mu) * (w[0] - mu) + SquaredDeviations(w[1..], mu)
  }

  /**
   * The sample variance (divisor n - 1). The source's Volatility is its
   * square root; the model keeps the variance.
   */
  function SampleVariance(w: seq<real>): real
    requires |w| > 1
  {
    SquaredDeviations(w, Mean(w)) / ((|w| - 1) as real)
  }

  /** The Window closes that end at row i. */
  function WindowAt(c: seq<real>, i: int): (w: seq<real>)
    requires Window - 1 <= i < |c|
    ensures |w| == Window
  {
    c[i - (Window - 1) .. i + 1]
  }

  /** rolling(window=5).mean(): NaN until a full window exists. */
  function RollingMean(c: seq<real>): seq<Option<real>>
  {
    seq(|c|, i requires 0 <= i < |c| =>
      if i >= Window - 1 then Some(Mean(WindowAt(c, i))) else None)
  }

  /** rolling(window=5).var(): NaN until a full window exists. */
  function RollingVariance(c: seq<real>): seq<Option<real>>
  {
    seq(|c|, i requires 0 <= i < |c| =>
      if i >= Window - 1 then Some(SampleVariance(WindowAt(c, i))) else None)
  }

  // ---------------------------------------------------------------- backfill

  /**
   * The first value of s that is not NaN, or NaN when there is none: the
   * value a backfill copies into a NaN at the front of s.
   */
  function FirstPresent<T>(s: seq<Option<T>>): (r: Option<T>)
    ensures r.None? ==> forall j :: 0 <= j < |s| ==> s[j].None?
    ensures r.Some? ==> exists j :: 0 <= j < |s| && s[j] == r && forall m :: 0 <= m < j ==> s[m].None?
  {
    if s == [] then None
    else if s[0].Some? then s[0]
    else
      var r := FirstPresent(s[1..]);
      assert forall j :: 1 <= j < |s| ==> s[j] == s[1..][j - 1];
      assert r.Some? ==> exists j :: 1 <= j < |s| && s[j] == r && forall m :: 0 <= m < j ==> s[m].None? by {
        if r.Some? {
          var j :| 0 <= j < |s[1..]| && s[1..][j] == r && forall m :: 0 <= m < j ==> s[1..][m].None?;
          assert s[j + 1] == r;
          assert forall m :: 1 <= m < j + 1 ==> s[m] == s[1..][m - 1];
        }
      }
      r
  }

  /**
   * fillna(method='backfill'): a value stays, and each NaN takes the first
   * value below it that is not NaN, or stays NaN when there is none.
   */
  function BackFill<T>(s: seq<Option<T>>): (r: seq<Option<T>>)
    ensures |r| == |s|
    ensures forall i :: 0 <= i < |s| ==> r[i] == FirstPresent(s[i..])
  {
    if s == [] then []
    else
      var rest := BackFill(s[1..]);
      var r := [if s[0].Some? || rest == [] then s[0] else rest[0]] + rest;
      assert forall i :: 1 <= i < |s| ==> s[1..][i - 1..] == s[i..];
      assert s[0..] == s;
      r
  }

  /**
   * A column whose first k entries are NaN and whose remaining entries are
   * values is backfilled by copying entry k upwards; when no value exists
   * (k is the whole column) everything stays NaN.
   */
  lemma {:induction false} BackFillLeadingGap<T>(s: seq<Option<T>>, k: nat)
    requires k <= |s|
    requires forall i :: 0 <= i < k ==> s[i].None?
    requires forall i :: k <= i < |s| ==> s[i].Some?
    ensures forall i :: 0 <= i < |s| ==>
      BackFill(s)[i] == (if k == |s| then None else if i >= k then s[i] else s[k])
  {
    if s != [] {
      var rest := BackFill(s[1..]);
      if k == 0 {
        BackFillLeadingGap(s[1..], 0);
      } else {
        BackFillLeadingGap(s[1..], k - 1);
      }
      assert BackFill(s) == [if s[0].Some? || rest == [] then s[0] else rest[0]] + rest;
      forall i | 0 <= i < |s|
        ensures BackFill(s)[i] == (if k == |s| then None else if i >= k then s[i] else s[k])
      {
        if i > 0 {
          assert BackFill(s)[i] == rest[i - 1];
        }
      }
    }
  }

  // ---------------------------------------------------------------- 5-Day MA and Volatility

  /** The row whose full window a row's statistic is taken from. */
  function WindowEnd(i: nat): nat
  {
    if i < Window - 1 then Window - 1 else i
  }

  /**
   * What the 5-Day MA of row i means: the mean of the 5 closes ending at
   * row i, or at row 4 for the first four rows; undefined at every row of a
   * table shorter than 5.
   */
  function MovingAverage5(c: seq<real>, i: nat): Option<real>
    requires i < |c|
  {
    if |c| < Window then None else Some(Mean(WindowAt(c, WindowEnd(i))))
  }

  /** What the Volatility of row i means, the same way, with the sample variance. */
  function Volatility5(c: seq<real>, i: nat): Option<real>
    requires i < |c|
  {
    if |c| < Window then None else Some(SampleVariance(WindowAt(c, WindowEnd(i))))
  }

  /** The 5-Day MA column: rolling(window=5).mean().fillna(method='backfill'). */
  function MovingAverageColumn(c: seq<real>): (r: seq<Option<real>>)
    ensures |r| == |c|
    ensures forall i :: 0 <= i < |c| ==> r[i] == MovingAverage5(c, i)
  {
    BackFillLeadingGap(RollingMean(c), if |c| < Window - 1 then |c| else Window - 1);
    BackFill(RollingMean(c))
  }

  /** The Volatility column: rolling(window=5).std().fillna(method='backfill'), squared. */
  function VolatilityColumn(c: seq<real>): (r: seq<Option<real>>)
    ensures |r| == |c|
    ensures forall i :: 0 <= i < |c| ==> r[i] == Volatility5(c, i)
  {
    BackFillLeadingGap(RollingVariance(c), if |c| < Window - 1 then |c| else Window - 1);
    BackFill(RollingVariance(c))
  }
}
