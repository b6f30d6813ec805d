/**
 The generator's orders fed to the engine, as the driver script does.

 The generator lists the orders ticker by ticker, each ticker's orders in row order; the
 engine only moves its pointer past orders dated on the current date. With two or more
 rows the first ticker's block is consumed one order per date, and the first order of the
 second ticker, dated on the first row, is never reached again: only the first ticker is
 ever traded. With a single row every order is dated on that row and all are executed.
 */
module Pipeline {
  import opened Market
  import opened BacktestEngine
  import opened OrderGenerator

  /** The inner loop executes exactly one order when the next one is for another date. */
  lemma ConsumeOne(c: Cursor, orders: seq<Order>, d: Date, t: PriceTable)
    requires c.orderIndex < |orders| && orders[c.orderIndex].date == d
    requires c.orderIndex + 1 == |orders| || orders[c.orderIndex + 1].date != d
    ensures Consume(c, orders, d, t).orderIndex == c.orderIndex + 1
  {
    ConsumeStep(c, orders, d, t);
  }

  /** The inner loop executes every remaining order when all of them are for the date. */
  lemma {:induction false} ConsumeAll(c: Cursor, orders: seq<Order>, d: Date, t: PriceTable)
    requires c.orderIndex <= |orders|
    requires forall k :: c.orderIndex <= k < |orders| ==> orders[k].date == d
    ensures Consume(c, orders, d, t).orderIndex == |orders|
    decreases |orders| - c.orderIndex
  {
    if c.orderIndex < |orders| {
      var o := orders[c.orderIndex];
      ConsumeStep(c, orders, d, t);
      ConsumeAll(Cursor(Trade(c.portfolio, o, t.close(d, o.ticker)), c.orderIndex + 1), orders, d, t);
    }
  }

  /** The first n generated orders (n rows) are the first ticker's, order i dated on row i. */
  lemma FirstColumnOrder(t: PriceTable, i: nat)
    requires |t.columns| >= 1 && i < |t.index|
    ensures i < |MeanReversionOrders(t)| && MeanReversionOrders(t)[i].date == t.index[i]
    ensures MeanReversionOrders(t)[i].ticker == t.columns[0]
  {
    OrderDate(t, 0, i);
    assert 0 * |t.index| + i == i;
  }

  /** The order after them is the second ticker's first, dated on row 0. */
  lemma SecondColumnStart(t: PriceTable)
    requires |t.columns| >= 2 && |t.index| >= 1
    ensures |t.index| < |MeanReversionOrders(t)| && MeanReversionOrders(t)[|t.index|].date == t.index[0]
  {
    OrderDate(t, 1, 0);
    assert 1 * |t.index| + 0 == |t.index|;
  }

  /**
   On an ascending index, order i - 1 of the generated list is dated on row i - 1, and the
   order after it, if any, is dated on another row.
   */
  lemma FirstColumnDates(t: PriceTable, i: nat)
    requires Ascending(t.index) && |t.index| >= 2 && |t.columns| >= 1
    requires 0 < i <= |t.index|
    ensures i - 1 < |MeanReversionOrders(t)| && MeanReversionOrders(t)[i - 1].date == t.index[i - 1]
    ensures i == |MeanReversionOrders(t)| || MeanReversionOrders(t)[i].date != t.index[i - 1]
  {
    var n := |t.index|;
    FirstColumnOrder(t, i - 1);
    if i < n {
      FirstColumnOrder(t, i);
      assert t.index[i - 1] < t.index[i];
    } else if |t.columns| >= 2 {
      SecondColumnStart(t);
      assert t.index[0] < t.index[n - 1];
    } else {
      OrderCount(t);
      assert |MeanReversionOrders(t)| == 1 * n;
    }
  }

  /** Over the first i rows of an ascending index, order i is the one at the pointer. */
  lemma {:induction false} FirstColumnPrefix(t: PriceTable, cash: real, i: nat)
    requires Ascending(t.index) && |t.index| >= 2 && |t.columns| >= 1
    requires i <= |t.index|
    ensures StateAfter(Start(cash), MeanReversionOrders(t), t.index[..i], t).orderIndex == i
  {
    if i > 0 {
      var orders := MeanReversionOrders(t);
      FirstColumnPrefix(t, cash, i - 1);
      var ds := t.index[..i];
      assert ds[..i - 1] == t.index[..i - 1];
      StateAfterStep(Start(cash), orders, ds, t);
      var s := StateAfter(Start(cash), orders, t.index[..i - 1], t);
      FirstColumnDates(t, i);
      ConsumeOne(s, orders, t.index[i - 1], t);
    }
  }

  /**
   Backtesting the generated orders of a table with at least two rows, in ascending order,
   executes exactly the first n orders, n the number of rows: the first ticker's, one per
   date, at that date's price. The orders of every other ticker are never executed.
   */
  lemma OnlyFirstTickerTraded(t: PriceTable, cash: real)
    requires Ascending(t.index) && |t.index| >= 2 && |t.columns| >= 1
    ensures StateAfter(Start(cash), MeanReversionOrders(t), SortDates(t.index), t).orderIndex == |t.index|
    ensures StateAfter(Start(cash), MeanReversionOrders(t), SortDates(t.index), t).portfolio
         == ApplyRange(Start(cash).portfolio, MeanReversionOrders(t), 0, |t.index|, t)
    ensures forall k :: 0 <= k < |t.index| ==>
      MeanReversionOrders(t)[k].ticker == t.columns[0] && MeanReversionOrders(t)[k].date == t.index[k]
  {
    SortAscending(t.index);
    FirstColumnPrefix(t, cash, |t.index|);
    assert t.index[..|t.index|] == t.index;
    forall k | 0 <= k < |t.index|
      ensures MeanReversionOrders(t)[k].ticker == t.columns[0] && MeanReversionOrders(t)[k].date == t.index[k]
    {
      FirstColumnOrder(t, k);
    }
  }

  /** With a single row, all the generated orders (one SELL per ticker) are executed. */
  lemma SingleRowAllTraded(t: PriceTable, cash: real)
    requires |t.index| == 1
    ensures StateAfter(Start(cash), MeanReversionOrders(t), SortDates(t.index), t).orderIndex == |t.columns|
  {
    var orders, d := MeanReversionOrders(t), t.index[0];
    SortAscending(t.index);
    SingleRowOrders(t);
    assert t.index[..0] == [];
    StateAfterStep(Start(cash), orders, t.index, t);
    ConsumeAll(Start(cash), orders, d, t);
  }
}
