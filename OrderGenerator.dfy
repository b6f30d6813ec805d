/**
 The mean-reversion order generator (`MeanReversionOrderGenerator.generate_orders`).

 For every column of the price table, in column order, and every row, in row order, the
 generator emits one order of 100 shares: BUY when the close is below the mean of the last
 100 closes (the row itself included), SELL otherwise. For the first 99 rows the rolling
 mean is undefined (pandas NaN); a comparison with NaN is false, so those rows emit SELL.
 */
module OrderGenerator {
  import opened Wrappers
  import opened Series
  import opened Market

  /** The rolling window, in rows. */
  const Window: nat := 100

  /** The size of every generated order, in shares. */
  const Quantity: int := 100

  /**
   `rolling(window=100).mean()` at row i: the mean of rows i-99..i, undefined (None) while
   fewer than 100 rows are available.
   */
  function TrailingMean(closes: seq<real>, i: nat): (m: Option<real>)
    requires i < |closes|
    ensures m.Some? <==> i >= Window - 1
  {
    if i + 1 < Window then None else Some(Sum(closes[i + 1 - Window..i + 1]) / (Window as real))
  }

  /** `row['Close'] < row['100_day_avg']`, where a comparison with an undefined mean is false. */
  predicate BelowMean(close: real, mean: Option<real>)
  {
    mean.Some? && close < mean.value
  }

  function Signal(close: real, mean: Option<real>): (r: string)
    ensures r == "BUY" || r == "SELL"
    ensures r == "BUY" <==> mean.Some? && close < mean.value
    ensures mean.None? ==> r == "SELL"
  {
    if BelowMean(close, mean) then "BUY" else "SELL"
  }

  /** The orders of one ticker: one per row, in row order. */
  function ColumnOrders(index: seq<Date>, closes: seq<real>, ticker: Ticker): (r: seq<Order>)
    requires |closes| == |index|
    ensures |r| == |index|
    ensures forall i :: 0 <= i < |r| ==> r[i].date == index[i] && r[i].ticker == ticker && r[i].quantity == Quantity
  {
    seq(|index|, i requires 0 <= i < |index| => Order(index[i], Signal(closes[i], TrailingMean(closes, i)), ticker, Quantity))
  }

  /** The orders of the columns cols, ticker after ticker, each ticker's orders together. */
  function OrdersFor(t: PriceTable, cols: seq<Ticker>): (r: seq<Order>)
    ensures |r| == |cols| * |t.index|
  {
    if cols == [] then []
    else
      var n := |cols|;
      var prev := OrdersFor(t, cols[..n - 1]);
      assert |prev| + |t.index| == n * |t.index|;
      prev + ColumnOrders(t.index, Column(t, cols[n - 1]), cols[n - 1])
  }

  /** What `generate_orders` returns. */
  function MeanReversionOrders(t: PriceTable): seq<Order>
  {
    OrdersFor(t, t.columns)
  }

  method GenerateOrders(data: PriceTable) returns (orders: seq<Order>)
    ensures orders == MeanReversionOrders(data)
  {
    orders := [];
    var tickers := data.columns;
    for c := 0 to |tickers|
      invariant orders == OrdersFor(data, tickers[..c])
    {
      var ticker := tickers[c];
      var closes := Column(data, ticker);
      orders := AppendTickerOrders(orders, data.index, closes, ticker);
      assert tickers[..c + 1][..c] == tickers[..c];
    }
    assert tickers[..|tickers|] == tickers;
  }

  /** The inner loop over the rows of one ticker, appending one order per row. */
  method AppendTickerOrders(orders0: seq<Order>, index: seq<Date>, closes: seq<real>, ticker: Ticker) returns (orders: seq<Order>)
    requires |closes| == |index|
    ensures orders == orders0 + ColumnOrders(index, closes, ticker)
  {
    orders := orders0;
    ghost var block := ColumnOrders(index, closes, ticker);
    for i := 0 to |index|
      invariant orders == orders0 + block[..i]
    {
      var avg := TrailingMean(closes, i);
      var order;
      assert block[i] == Order(index[i], Signal(closes[i], avg), ticker, Quantity);
      if avg.Some? && closes[i] < avg.value {
        order := Order(index[i], "BUY", ticker, Quantity);
        assert Signal(closes[i], avg) == "BUY" && order == block[i];
      } else {
        order := Order(index[i], "SELL", ticker, Quantity);
        assert Signal(closes[i], avg) == "SELL" && order == block[i];
      }
      assert block[..i + 1] == block[..i] + [order];
      orders := orders + [order];
    }
    assert block[..|index|] == block;
  }

  // ---------------------------------------------------------------------------------
  // Shape of the order list
  // ---------------------------------------------------------------------------------

  lemma RowInBlock(c: nat, i: nat, m: nat, n: nat)
    requires c < m && i < n
    ensures c * n + i < m * n
  {
    assert (c + 1) * n <= m * n;
  }

  lemma {:induction false} OrdersForAt(t: PriceTable, cols: seq<Ticker>, c: nat, i: nat)
    requires c < |cols| && i < |t.index|
    ensures c * |t.index| + i < |OrdersFor(t, cols)|
    ensures OrdersFor(t, cols)[c * |t.index| + i]
         == Order(t.index[i], Signal(t.close(t.index[i], cols[c]), TrailingMean(Column(t, cols[c]), i)), cols[c], Quantity)
    decreases |cols|
  {
    var n, m := |t.index|, |cols|;
    RowInBlock(c, i, m, n);
    var prev := OrdersFor(t, cols[..m - 1]);
    if c < m - 1 {
      OrdersForAt(t, cols[..m - 1], c, i);
      RowInBlock(c, i, m - 1, n);
    } else {
      assert |prev| == c * n;
    }
  }

  /**
   Order number c * n + i (n rows) is the order of column c on row i: the list holds the
   columns one after another, each in row order. Its quantity is 100, its ticker the
   column's, its date the row's, and it is a BUY exactly when the mean of rows i-99..i is
   defined and above the close.
   */
  lemma OrderAt(t: PriceTable, c: nat, i: nat)
    requires c < |t.columns| && i < |t.index|
    ensures c * |t.index| + i < |MeanReversionOrders(t)|
    ensures MeanReversionOrders(t)[c * |t.index| + i].date == t.index[i]
    ensures MeanReversionOrders(t)[c * |t.index| + i].ticker == t.columns[c]
    ensures MeanReversionOrders(t)[c * |t.index| + i].quantity == 100
    ensures MeanReversionOrders(t)[c * |t.index| + i].kind == "BUY" || MeanReversionOrders(t)[c * |t.index| + i].kind == "SELL"
    ensures MeanReversionOrders(t)[c * |t.index| + i].kind == "BUY" <==>
      i >= 99 && t.close(t.index[i], t.columns[c]) < Sum(Column(t, t.columns[c])[i - 99..i + 1]) / 100.0
  {
    OrdersForAt(t, t.columns, c, i);
  }

  /** Order number c * n + i (n rows) is dated on row i and names column c. */
  lemma OrderDate(t: PriceTable, c: nat, i: nat)
    requires c < |t.columns| && i < |t.index|
    ensures c * |t.index| + i < |MeanReversionOrders(t)|
    ensures MeanReversionOrders(t)[c * |t.index| + i].date == t.index[i]
    ensures MeanReversionOrders(t)[c * |t.index| + i].ticker == t.columns[c]
  {
    OrdersForAt(t, t.columns, c, i);
  }

  /** The list holds exactly one order per (column, row) pair. */
  lemma OrderCount(t: PriceTable)
    ensures |MeanReversionOrders(t)| == |t.columns| * |t.index|
  {
  }

  /** Every generated order lies within the table: its row and its column exist. */
  lemma {:induction false} GeneratedCovered(t: PriceTable)
    ensures forall k :: 0 <= k < |MeanReversionOrders(t)| ==>
      MeanReversionOrders(t)[k].date in t.index && MeanReversionOrders(t)[k].ticker in t.columns
    ensures Covered(MeanReversionOrders(t), t)
  {
    ColumnsCovered(t, t.columns);
  }

  lemma {:induction false} ColumnsCovered(t: PriceTable, cols: seq<Ticker>)
    requires forall j :: 0 <= j < |cols| ==> cols[j] in t.columns
    ensures forall k :: 0 <= k < |OrdersFor(t, cols)| ==>
      OrdersFor(t, cols)[k].date in t.index && OrdersFor(t, cols)[k].ticker in t.columns
    decreases |cols|
  {
    if cols != [] {
      var n := |cols|;
      ColumnsCovered(t, cols[..n - 1]);
      var prev := OrdersFor(t, cols[..n - 1]);
      var block := ColumnOrders(t.index, Column(t, cols[n - 1]), cols[n - 1]);
      forall k | 0 <= k < |OrdersFor(t, cols)|
        ensures OrdersFor(t, cols)[k].date in t.index && OrdersFor(t, cols)[k].ticker in t.columns
      {
        if k >= |prev| {
          assert OrdersFor(t, cols)[k] == block[k - |prev|];
        } else {
          assert OrdersFor(t, cols)[k] == prev[k];
        }
      }
    }
  }

  // ---------------------------------------------------------------------------------
  // The trailing mean and the signal
  // ---------------------------------------------------------------------------------

  /** The trailing mean lies within any bounds that hold for every close of its window. */
  lemma MeanWithinWindow(closes: seq<real>, i: nat, lo: real, hi: real)
    requires Window - 1 <= i < |closes|
    requires forall j :: i + 1 - Window <= j <= i ==> lo <= closes[j] <= hi
    ensures lo <= TrailingMean(closes, i).value <= hi
  {
    var w := closes[i + 1 - Window..i + 1];
    assert forall j :: 0 <= j < |w| ==> w[j] == closes[i + 1 - Window + j];
    SumBounds(w, lo, hi);
    DivideBounds(Sum(w), 100.0, lo, hi);
  }

  /** Moving the window one row on adds the new close and drops the oldest one. */
  lemma SlidingMean(closes: seq<real>, i: nat)
    requires Window - 1 <= i && i + 1 < |closes|
    ensures TrailingMean(closes, i + 1).value
         == TrailingMean(closes, i).value + (closes[i + 1] - closes[i + 1 - Window]) / (Window as real)
  {
    var a, b := closes[i + 1 - Window..i + 1], closes[i + 2 - Window..i + 2];
    SumDropFirst(a);
    assert b[..|b| - 1] == a[1..];
  }

  /** The sum of a series is its first element plus the sum of the rest. */
  lemma {:induction false} SumDropFirst(s: seq<real>)
    requires |s| > 0
    ensures Sum(s) == s[0] + Sum(s[1..])
  {
    if |s| > 1 {
      var n := |s|;
      SumDropFirst(s[..n - 1]);
      assert s[..n - 1][1..] == s[1..][..n - 2];
    }
  }

  /**
   A BUY is only ever emitted after a fall: some close in the window is above the close of
   the row being bought.
   */
  lemma BuyBelowWindowHigh(closes: seq<real>, i: nat)
    requires i < |closes|
    requires Signal(closes[i], TrailingMean(closes, i)) == "BUY"
    ensures exists j :: i + 1 - Window <= j <= i && closes[i] < closes[j]
  {
    var w := closes[i + 1 - Window..i + 1];
    var hi := Max(w);
    forall j | i + 1 - Window <= j <= i
      ensures Min(w) <= closes[j] <= hi
    {
      assert closes[j] == w[j - (i + 1 - Window)];
    }
    MeanWithinWindow(closes, i, Min(w), hi);
    var j :| 0 <= j < |w| && w[j] == hi;
    assert closes[i + 1 - Window + j] == w[j];
  }

  /** A flat price series never goes below its own mean: every order is a SELL. */
  lemma FlatPricesSell(closes: seq<real>, p: real, i: nat)
    requires i < |closes|
    requires forall j :: 0 <= j < |closes| ==> closes[j] == p
    ensures Signal(closes[i], TrailingMean(closes, i)) == "SELL"
  {
    if i >= Window - 1 {
      SumBounds(closes[i + 1 - Window..i + 1], p, p);
    }
  }

  // ---------------------------------------------------------------------------------
  // Where the code and its tests part ways
  // ---------------------------------------------------------------------------------

  /**
   Rows 0..98 emit an order too, a SELL, dated on the row. The test that expects no order
   dated before row 99 asserts the opposite.
   */
  lemma EarlyRowsSell(t: PriceTable, c: nat, i: nat)
    requires c < |t.columns| && i < |t.index| && i < Window - 1
    ensures c * |t.index| + i < |MeanReversionOrders(t)|
    ensures MeanReversionOrders(t)[c * |t.index| + i] == Order(t.index[i], "SELL", t.columns[c], Quantity)
  {
    OrdersForAt(t, t.columns, c, i);
  }

  /** With ascending dates and at least 100 rows, some order is dated before row 99. */
  lemma OrderBeforeRow99(t: PriceTable)
    requires Ascending(t.index) && |t.index| >= Window && |t.columns| > 0
    ensures exists k :: 0 <= k < |MeanReversionOrders(t)| && MeanReversionOrders(t)[k].date < t.index[99]
  {
    EarlyRowsSell(t, 0, 0);
    assert MeanReversionOrders(t)[0].date == t.index[0];
  }

  /**
   A single row yields one SELL per column, not an empty list: the test that expects zero
   orders for one row holds only for a table with no columns.
   */
  lemma SingleRowOrders(t: PriceTable)
    requires |t.index| == 1
    ensures |MeanReversionOrders(t)| == |t.columns|
    ensures forall c :: 0 <= c < |t.columns| ==> MeanReversionOrders(t)[c] == Order(t.index[0], "SELL", t.columns[c], Quantity)
    ensures |MeanReversionOrders(t)| == 0 <==> t.columns == []
  {
    forall c | 0 <= c < |t.columns|
      ensures MeanReversionOrders(t)[c] == Order(t.index[0], "SELL", t.columns[c], Quantity)
    {
      EarlyRowsSell(t, c, 0);
    }
  }
}
