/**
 The data shared by the order generator and the backtest engine: trading dates, tickers,
 order records and the table of closing prices (a pandas DataFrame indexed by date with
 one column per ticker).
 */
module Market {

  /** A trading date, as its day number; earlier dates are smaller. */
  type Date = int

  type Ticker = string

  /**
   An order record: the dict with keys date, type, ticker and quantity. The type is kept
   as the string it is in the source: the engine acts on "BUY" and "SELL" and consumes any
   other type without effect.
   */
  datatype Order = Order(date: Date, kind: string, ticker: Ticker, quantity: int)

  /**
   A price table: the row labels (`data.index`), the column labels (`data.columns`) and the
   cell lookup `data.at[date, ticker]`, total here (a missing label or cell is not modelled).
   */
  datatype PriceTable = PriceTable(index: seq<Date>, columns: seq<Ticker>, close: (Date, Ticker) -> real)

  predicate Distinct<T(==)>(s: seq<T>)
  {
    forall i, j :: 0 <= i < j < |s| ==> s[i] != s[j]
  }

  /** The column of one ticker, in row order (`data[ticker]`). */
  function Column(t: PriceTable, k: Ticker): (c: seq<real>)
    ensures |c| == |t.index|
    ensures forall i :: 0 <= i < |c| ==> c[i] == t.close(t.index[i], k)
  {
    seq(|t.index|, i requires 0 <= i < |t.index| => t.close(t.index[i], k))
  }

  /**
   Every order dated on a row of the table is for one of its columns: the price lookup
   `data.at[date, ticker]` succeeds for every order the engine executes.
   */
  predicate Covered(orders: seq<Order>, t: PriceTable)
  {
    forall k :: 0 <= k < |orders| && orders[k].date in t.index ==> orders[k].ticker in t.columns
  }

  predicate NonDecreasing(s: seq<Date>)
  {
    forall i, j :: 0 <= i < j < |s| ==> s[i] <= s[j]
  }

  predicate Ascending(s: seq<Date>)
  {
    forall i, j :: 0 <= i < j < |s| ==> s[i] < s[j]
  }

  /** Inserts a date into a sorted sequence of dates before the first date not below it. */
  function Insert(x: Date, s: seq<Date>): (r: seq<Date>)
    requires NonDecreasing(s)
    ensures |r| == |s| + 1
    ensures multiset(r) == multiset(s) + multiset{x}
    ensures forall y :: y in r <==> y == x || y in s
    ensures NonDecreasing(r)
    ensures Ascending(s) && x !in s ==> Ascending(r)
  {
    if s == [] then [x]
    else if x <= s[0] then [x] + s
    else
      assert s == [s[0]] + s[1..];
      var t := Insert(x, s[1..]);
      InsertAfterHead(x, s, t);
      [s[0]] + t
  }

  /** The step of Insert that keeps the head of s in front of the insertion into its tail. */
  lemma InsertAfterHead(x: Date, s: seq<Date>, t: seq<Date>)
    requires NonDecreasing(s) && s != [] && s[0] < x
    requires forall y :: y in t <==> y == x || y in s[1..]
    requires NonDecreasing(t)
    requires Ascending(s) && x !in s ==> Ascending(t)
    ensures NonDecreasing([s[0]] + t)
    ensures Ascending(s) && x !in s ==> Ascending([s[0]] + t)
  {
    var r := [s[0]] + t;
    forall j | 0 < j < |r|
      ensures s[0] <= r[j] && (Ascending(s) && x !in s ==> s[0] < r[j])
    {
      assert r[j] == t[j - 1] && t[j - 1] in t;
      if r[j] != x {
        var m :| 0 <= m < |s[1..]| && s[1..][m] == r[j];
        assert s[m + 1] == r[j];
      }
    }
  }

  /** The sorted row labels (`data.index.sort_values()`), by insertion sort. */
  function SortDates(s: seq<Date>): (r: seq<Date>)
    ensures |r| == |s|
    ensures multiset(r) == multiset(s)
    ensures forall y :: y in r <==> y in s
    ensures NonDecreasing(r)
    ensures Distinct(s) ==> Ascending(r)
  {
    if s == [] then []
    else
      assert s == [s[0]] + s[1..];
      Insert(s[0], SortDates(s[1..]))
  }

  /** Sorting a sequence that is already ascending leaves it as it is. */
  lemma {:induction false} SortAscending(s: seq<Date>)
    requires Ascending(s)
    ensures SortDates(s) == s
  {
    if s != [] {
      SortAscending(s[1..]);
    }
  }
}
