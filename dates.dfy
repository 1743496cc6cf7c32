/**
 * Calendar dates of the price table as integer day numbers. A date that
 * did not parse (pandas' NaT) is None. This module holds the order pandas
 * sorts a Date column by, a sort by that order, and the earliest and latest
 * dates of a column, which skip NaT as pandas' min and max do.
 */
module Dates {
  import opened Wrappers

  /** Ascending day number with NaT after every real date (na_position='last'). */
  predicate DateLe(a: Option<int>, b: Option<int>)
  {
    match a
    case None => b.None?
    case Some(x) => b.None? || x <= b.value
  }

  /** Strictly earlier in the same order. */
  predicate DateLt(a: Option<int>, b: Option<int>)
  {
    !DateLe(b, a)
  }

  predicate SortedByDate<T>(s: seq<T>, date: T -> Option<int>)
  {
    forall i, j :: 0 <= i < j < |s| ==> DateLe(date(s[i]), date(s[j]))
  }

  /** No two rows share a date (and at most one row has no date). */
  predicate StrictlySortedByDate<T>(s: seq<T>, date: T -> Option<int>)
  {
    forall i, j :: 0 <= i < j < |s| ==> DateLt(date(s[i]), date(s[j]))
  }

  /** Puts x in front of the first row that does not come strictly before it. */
  function Insert<T(==)>(x: T, s: seq<T>, date: T -> Option<int>): (r: seq<T>)
    ensures multiset(r) == multiset(s) + multiset{x}
  {
    if s == [] then [x]
    else if DateLe(date(x), date(s[0])) then [x] + s
    else
      assert s == [s[0]] + s[1..];
      [s[0]] + Insert(x, s[1..], date)
  }

  /** Inserting into a date-sorted table keeps it date-sorted. */
  lemma {:induction false} InsertKeepsOrder<T>(x: T, s: seq<T>, date: T -> Option<int>)
    requires SortedByDate(s, date)
    ensures SortedByDate(Insert(x, s, date), date)
  {
    if s != [] && !DateLe(date(x), date(s[0])) {
      InsertKeepsOrder(x, s[1..], date);
      var rest := Insert(x, s[1..], date);
      forall k | 0 <= k < |rest|
        ensures DateLe(date(s[0]), date(rest[k]))
      {
        assert rest[k] in multiset(rest);
        if rest[k] != x {
          assert rest[k] in multiset(s[1..]);
          var j :| 0 <= j < |s| - 1 && s[1..][j] == rest[k];
          assert s[1 + j] == rest[k];
        }
      }
    }
  }

  /**
   * sort_values('Date'): the rows in date order, NaT last. This insertion
   * sort keeps rows that share a date in table order; the contracts of the
   * table operations built on it do not promise that order.
   */
  function SortByDate<T(==)>(s: seq<T>, date: T -> Option<int>): (r: seq<T>)
    ensures |r| == |s|
    ensures SortedByDate(r, date)
    ensures multiset(r) == multiset(s)
  {
    if s == [] then []
    else
      assert s == [s[0]] + s[1..];
      var r := Insert(s[0], SortByDate(s[1..], date), date);
      InsertKeepsOrder(s[0], SortByDate(s[1..], date), date);
      assert |multiset(r)| == |multiset(s)|;
      r
  }

  /** In a date-sorted table no row up to row p carries a date strictly later than row p's. */
  lemma EarlierRowsAreNotLater<T>(s: seq<T>, date: T -> Option<int>, p: nat, d: Option<int>)
    requires SortedByDate(s, date) && p < |s|
    requires DateLt(date(s[p]), d)
    ensures forall q :: 0 <= q <= p ==> date(s[q]) != d
  {
  }

  /**
   * Sorting a table in which every row is strictly later than the one
   * before gives it back unchanged: with no ties, the date order alone
   * fixes the result, whatever the sort does with rows that share a date.
   */
  lemma {:induction false} SortSortedIsIdentity<T>(s: seq<T>, date: T -> Option<int>)
    requires StrictlySortedByDate(s, date)
    ensures SortByDate(s, date) == s
  {
    if s != [] {
      var rest := s[1..];
      assert SortByDate(rest, date) == rest by {
        StrictTail(s, date);
        SortSortedIsIdentity(rest, date);
      }
      assert Insert(s[0], rest, date) == s by {
        if rest != [] {
          assert DateLt(date(s[0]), date(s[1]));
        }
        assert s == [s[0]] + rest;
      }
    }
  }

  /** Without its first row a strictly date-ordered table stays strictly ordered. */
  lemma StrictTail<T>(s: seq<T>, date: T -> Option<int>)
    requires StrictlySortedByDate(s, date) && s != []
    ensures StrictlySortedByDate(s[1..], date)
  {
    var rest := s[1..];
    forall i, j | 0 <= i < j < |rest|
      ensures DateLt(date(rest[i]), date(rest[j]))
    {
      assert rest[i] == s[i + 1] && rest[j] == s[j + 1];
    }
  }

  /** Date column minimum: the earliest real date, None when every date is NaT. */
  function MinDate(ds: seq<Option<int>>): (r: Option<int>)
    ensures r.None? <==> forall i :: 0 <= i < |ds| ==> ds[i].None?
    ensures r.Some? ==> r in ds
    ensures r.Some? ==> forall i :: 0 <= i < |ds| && ds[i].Some? ==> r.value <= ds[i].value
  {
    if ds == [] then None
    else
      var m := MinDate(ds[1..]);
      assert forall i :: 1 <= i < |ds| ==> ds[i] == ds[1..][i - 1];
      match ds[0]
      case None => m
      case Some(d) => if m.Some? && m.value < d then m else Some(d)
  }

  /** Date column maximum: the latest real date, None when every date is NaT. */
  function MaxDate(ds: seq<Option<int>>): (r: Option<int>)
    ensures r.None? <==> forall i :: 0 <= i < |ds| ==> ds[i].None?
    ensures r.Some? ==> r in ds
    ensures r.Some? ==> forall i :: 0 <= i < |ds| && ds[i].Some? ==> ds[i].value <= r.value
  {
    if ds == [] then None
    else
      var m := MaxDate(ds[1..]);
      assert forall i :: 1 <= i < |ds| ==> ds[i] == ds[1..][i - 1];
      match ds[0]
      case None => m
      case Some(d) => if m.Some? && m.value > d then m else Some(d)
  }
}
