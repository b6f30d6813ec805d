/**
 The long/short equity backtest engine (`EquityBacktestEngine.run_backtest`).

 The engine walks the sorted row labels of the price table. On each date it applies, in
 list order, the orders at the order pointer whose date is that date, then marks the
 portfolio to market and appends one (date, value) pair. Orders are never refused: cash
 and share counts may go negative.

 The specification functions below describe the same walk on values: Trade (one order),
 Consume (the inner loop on one date), StateAfter (the state after a prefix of the dates)
 and Run (the value series); the class method is proved to compute Run.
 */
module BacktestEngine {
  import opened Market

  /** The `holdings` dict: (ticker, share count) entries in insertion order. */
  type Holdings = seq<(Ticker, int)>

  /** k has an entry in the dict. */
  predicate Holds(h: Holdings, k: Ticker)
  {
    h != [] && (h[0].0 == k || Holds(h[1..], k))
  }

  /** No ticker has two entries: the invariant of a dict. */
  predicate UniqueKeys(h: Holdings)
  {
    h == [] || (!Holds(h[1..], h[0].0) && UniqueKeys(h[1..]))
  }

  /** `holdings.get(k, 0)` */
  function Get(h: Holdings, k: Ticker): (q: int)
    ensures !Holds(h, k) ==> q == 0
  {
    if h == [] then 0 else if h[0].0 == k then h[0].1 else Get(h[1..], k)
  }

  /** `holdings[k] = q`: overwrites the entry of k where it stands, or appends one. */
  function Put(h: Holdings, k: Ticker, q: int): (r: Holdings)
    ensures Get(r, k) == q
    ensures forall u :: u != k ==> Get(r, u) == Get(h, u)
  {
    if h == [] then [(k, q)]
    else if h[0].0 == k then [(k, q)] + h[1..]
    else [h[0]] + Put(h[1..], k, q)
  }

  /**
   After `holdings[k] = q` exactly k and the old keys have entries, the dict grows by one
   entry only when k is new, and no key gets a second entry.
   */
  lemma {:induction false} PutKeys(h: Holdings, k: Ticker, q: int)
    ensures forall u :: Holds(Put(h, k, q), u) <==> Holds(h, u) || u == k
    ensures |Put(h, k, q)| == if Holds(h, k) then |h| else |h| + 1
    ensures UniqueKeys(h) ==> UniqueKeys(Put(h, k, q))
  {
    var r := Put(h, k, q);
    if h == [] {
    } else if h[0].0 == k {
      assert r[1..] == h[1..];
    } else {
      assert r[0] == h[0] && r[1..] == Put(h[1..], k, q);
      PutKeys(h[1..], k, q);
    }
  }

  /** Cash and holdings: the engine's `cash` and `holdings`. */
  datatype Portfolio = Portfolio(cash: real, holdings: Holdings)

  /** The engine's whole loop state: the portfolio and `order_index`. */
  datatype Cursor = Cursor(portfolio: Portfolio, orderIndex: nat)

  function Start(initialCash: real): Cursor
  {
    Cursor(Portfolio(initialCash, []), 0)
  }

  /** The marked value of the positions on date d: the sum of price[d][k] * holdings[k]. */
  function Exposure(h: Holdings, d: Date, t: PriceTable): real
  {
    if h == [] then 0.0
    else t.close(d, h[0].0) * (h[0].1 as real) + Exposure(h[1..], d, t)
  }

  /** Mark to market: total value = cash + positions at date d's prices. */
  function Mark(p: Portfolio, d: Date, t: PriceTable): real
  {
    p.cash + Exposure(p.holdings, d, t)
  }

  /** One order executed at the given price, without any cash or holdings check. */
  function Trade(p: Portfolio, o: Order, price: real): (r: Portfolio)
    ensures o.kind == "BUY" ==> Get(r.holdings, o.ticker) == Get(p.holdings, o.ticker) + o.quantity
    ensures o.kind == "SELL" ==> Get(r.holdings, o.ticker) == Get(p.holdings, o.ticker) - o.quantity
    ensures o.kind != "BUY" && o.kind != "SELL" ==> r == p
    ensures forall u :: u != o.ticker ==> Get(r.holdings, u) == Get(p.holdings, u)
  {
    if o.kind == "BUY" then
      Portfolio(p.cash - price * (o.quantity as real), Put(p.holdings, o.ticker, Get(p.holdings, o.ticker) + o.quantity))
    else if o.kind == "SELL" then
      Portfolio(p.cash + price * (o.quantity as real), Put(p.holdings, o.ticker, Get(p.holdings, o.ticker) - o.quantity))
    else p
  }

  /** A BUY pays price * quantity out of cash and a SELL adds it, whatever the balances. */
  lemma TradeCash(p: Portfolio, o: Order, price: real)
    ensures o.kind == "BUY" ==> Trade(p, o, price).cash == p.cash - price * (o.quantity as real)
    ensures o.kind == "SELL" ==> Trade(p, o, price).cash == p.cash + price * (o.quantity as real)
  {
  }

  /** The orders a..b-1 traded one after another, each at the price of its own date. */
  function ApplyRange(p: Portfolio, orders: seq<Order>, a: nat, b: nat, t: PriceTable): Portfolio
    requires a <= b <= |orders|
    decreases b - a
  {
    if a == b then p
    else ApplyRange(Trade(p, orders[a], t.close(orders[a].date, orders[a].ticker)), orders, a + 1, b, t)
  }

  lemma {:induction false} ApplyRangeSplit(p: Portfolio, orders: seq<Order>, a: nat, b: nat, c: nat, t: PriceTable)
    requires a <= b <= c <= |orders|
    ensures ApplyRange(p, orders, a, c, t) == ApplyRange(ApplyRange(p, orders, a, b, t), orders, b, c, t)
    decreases b - a
  {
    if a < b {
      ApplyRangeSplit(Trade(p, orders[a], t.close(orders[a].date, orders[a].ticker)), orders, a + 1, b, c, t);
    }
  }

  /**
   The inner `while` on date d: applies the orders from the pointer on while their date is d.
   The pointer only moves forward, every order it passes is dated d, it stops at the first
   order not dated d, and the portfolio is the one those orders produce in list order.
   */
  function Consume(c: Cursor, orders: seq<Order>, d: Date, t: PriceTable): (r: Cursor)
    requires c.orderIndex <= |orders|
    ensures c.orderIndex <= r.orderIndex <= |orders|
    ensures forall k :: c.orderIndex <= k < r.orderIndex ==> orders[k].date == d
    ensures r.orderIndex == |orders| || orders[r.orderIndex].date != d
    ensures r.portfolio == ApplyRange(c.portfolio, orders, c.orderIndex, r.orderIndex, t)
    decreases |orders| - c.orderIndex
  {
    if c.orderIndex < |orders| && orders[c.orderIndex].date == d then
      var o := orders[c.orderIndex];
      Consume(Cursor(Trade(c.portfolio, o, t.close(d, o.ticker)), c.orderIndex + 1), orders, d, t)
    else c
  }

  /** One more order at the pointer dated d: the inner loop moves past it. */
  lemma ConsumeStep(c: Cursor, orders: seq<Order>, d: Date, t: PriceTable)
    requires c.orderIndex < |orders| && orders[c.orderIndex].date == d
    ensures Consume(c, orders, d, t)
         == Consume(Cursor(Trade(c.portfolio, orders[c.orderIndex], t.close(d, orders[c.orderIndex].ticker)), c.orderIndex + 1), orders, d, t)
  {
  }

  /**
   The loop state after the dates ds. The consumed orders are exactly the orders between
   the starting pointer and the final one, each dated on one of the dates, and the
   portfolio is the one obtained by trading that stretch of the list in order.
   */
  function StateAfter(c0: Cursor, orders: seq<Order>, ds: seq<Date>, t: PriceTable): (r: Cursor)
    requires c0.orderIndex <= |orders|
    ensures c0.orderIndex <= r.orderIndex <= |orders|
    ensures forall k :: c0.orderIndex <= k < r.orderIndex ==> orders[k].date in ds
    ensures r.portfolio == ApplyRange(c0.portfolio, orders, c0.orderIndex, r.orderIndex, t)
    decreases |ds|
  {
    if ds == [] then c0
    else
      var n := |ds|;
      var s := StateAfter(c0, orders, ds[..n - 1], t);
      var r := Consume(s, orders, ds[n - 1], t);
      ApplyRangeSplit(c0.portfolio, orders, c0.orderIndex, s.orderIndex, r.orderIndex, t);
      r
  }

  /** One more date: the inner loop run on the state after the dates before it. */
  lemma StateAfterStep(c0: Cursor, orders: seq<Order>, ds: seq<Date>, t: PriceTable)
    requires c0.orderIndex <= |orders| && ds != []
    ensures StateAfter(c0, orders, ds, t) == Consume(StateAfter(c0, orders, ds[..|ds| - 1], t), orders, ds[|ds| - 1], t)
  {
  }

  /** The value series: one (date, marked value) pair per date of ds, in the order of ds. */
  function Run(c0: Cursor, orders: seq<Order>, ds: seq<Date>, t: PriceTable): (r: seq<(Date, real)>)
    requires c0.orderIndex <= |orders|
    ensures |r| == |ds|
    ensures forall k :: 0 <= k < |r| ==> r[k].0 == ds[k]
    decreases |ds|
  {
    if ds == [] then []
    else
      var n := |ds|;
      Run(c0, orders, ds[..n - 1], t) + [(ds[n - 1], Mark(StateAfter(c0, orders, ds, t).portfolio, ds[n - 1], t))]
  }

  /** The loop body of `run_backtest` on the date ds[i]: one inner loop, one appended value. */
  lemma RunStep(c0: Cursor, orders: seq<Order>, ds: seq<Date>, t: PriceTable, i: nat)
    requires c0.orderIndex <= |orders| && i < |ds|
    ensures StateAfter(c0, orders, ds[..i + 1], t) == Consume(StateAfter(c0, orders, ds[..i], t), orders, ds[i], t)
    ensures Run(c0, orders, ds[..i + 1], t)
         == Run(c0, orders, ds[..i], t) + [(ds[i], Mark(StateAfter(c0, orders, ds[..i + 1], t).portfolio, ds[i], t))]
  {
    assert ds[..i + 1][..i] == ds[..i];
    StateAfterStep(c0, orders, ds[..i + 1], t);
  }

  /**
   What `run_backtest` returns for an engine created with initialCash: one entry per row of
   the table, in ascending date order.
   */
  function Backtest(initialCash: real, orders: seq<Order>, t: PriceTable): (r: seq<(Date, real)>)
    requires Distinct(t.index)
    ensures |r| == |t.index|
    ensures forall i, j :: 0 <= i < j < |r| ==> r[i].0 < r[j].0
    ensures forall d :: d in t.index <==> exists k :: 0 <= k < |r| && r[k].0 == d
  {
    var ds := SortDates(t.index);
    var r := Run(Start(initialCash), orders, ds, t);
    assert forall d :: d in t.index ==> d in ds;
    r
  }

  // ---------------------------------------------------------------------------------
  // Properties of the walk
  // ---------------------------------------------------------------------------------

  /** price * (a + b) == price * a + price * b, with integer share counts. */
  lemma Distribute(price: real, a: int, b: int)
    ensures price * ((a + b) as real) == price * (a as real) + price * (b as real)
    ensures price * ((a - b) as real) == price * (a as real) - price * (b as real)
  {
  }

  /** The marked value of a dict with a first entry x. */
  lemma ExposureCons(x: (Ticker, int), rest: Holdings, d: Date, t: PriceTable)
    ensures Exposure([x] + rest, d, t) == t.close(d, x.0) * (x.1 as real) + Exposure(rest, d, t)
  {
    assert ([x] + rest)[1..] == rest;
  }

  /** `holdings[k] = q` on a dict whose first entry is k's. */
  lemma PutHead(h: Holdings, k: Ticker, q: int)
    requires h != [] && h[0].0 == k
    ensures Put(h, k, q) == [(k, q)] + h[1..] && Get(h, k) == h[0].1
    ensures h == [h[0]] + h[1..]
  {
  }

  /** `holdings[k] = q` on a dict whose first entry is another ticker's. */
  lemma PutTail(h: Holdings, k: Ticker, q: int)
    requires h != [] && h[0].0 != k
    ensures Put(h, k, q) == [h[0]] + Put(h[1..], k, q) && Get(h, k) == Get(h[1..], k)
    ensures h == [h[0]] + h[1..]
  {
  }

  /** Overwriting the first entry changes the marked value by the change of that position. */
  lemma ExposureHead(h: Holdings, k: Ticker, q: int, d: Date, t: PriceTable)
    requires h != [] && h[0].0 == k
    ensures Exposure(Put(h, k, q), d, t) - Exposure(h, d, t)
         == t.close(d, k) * (q as real) - t.close(d, k) * (Get(h, k) as real)
  {
    PutHead(h, k, q);
    ExposureCons((k, q), h[1..], d, t);
    ExposureCons(h[0], h[1..], d, t);
  }

  /** Overwriting a later entry changes the marked value as it does on the rest of the dict. */
  lemma ExposureTail(h: Holdings, k: Ticker, q: int, d: Date, t: PriceTable)
    requires h != [] && h[0].0 != k
    ensures Exposure(Put(h, k, q), d, t) - Exposure(h, d, t)
         == Exposure(Put(h[1..], k, q), d, t) - Exposure(h[1..], d, t)
    ensures Get(h, k) == Get(h[1..], k)
  {
    PutTail(h, k, q);
    ExposureCons(h[0], Put(h[1..], k, q), d, t);
    ExposureCons(h[0], h[1..], d, t);
  }

  /** `holdings[k] = q` changes the marked value by price * (q - old count). */
  lemma {:induction false} ExposurePut(h: Holdings, k: Ticker, q: int, d: Date, t: PriceTable)
    ensures Exposure(Put(h, k, q), d, t) - Exposure(h, d, t)
         == t.close(d, k) * (q as real) - t.close(d, k) * (Get(h, k) as real)
  {
    if h == [] {
      ExposureCons((k, q), [], d, t);
      assert Put(h, k, q) == [(k, q)] + [];
      assert Get(h, k) as real == 0.0;
    } else if h[0].0 == k {
      ExposureHead(h, k, q, d, t);
    } else {
      ExposureTail(h, k, q, d, t);
      ExposurePut(h[1..], k, q, d, t);
    }
  }

  /** delta more shares of k add price * delta to the value of the positions. */
  lemma ExposureBuy(h: Holdings, k: Ticker, delta: int, d: Date, t: PriceTable)
    ensures Exposure(Put(h, k, Get(h, k) + delta), d, t) == Exposure(h, d, t) + t.close(d, k) * (delta as real)
  {
    ExposurePut(h, k, Get(h, k) + delta, d, t);
    Distribute(t.close(d, k), Get(h, k), delta);
  }

  /** delta fewer shares of k take price * delta off the value of the positions. */
  lemma ExposureSell(h: Holdings, k: Ticker, delta: int, d: Date, t: PriceTable)
    ensures Exposure(Put(h, k, Get(h, k) - delta), d, t) == Exposure(h, d, t) - t.close(d, k) * (delta as real)
  {
    ExposurePut(h, k, Get(h, k) - delta, d, t);
    Distribute(t.close(d, k), Get(h, k), delta);
  }

  /**
   A trade executed at the current date's price leaves the marked value on that date
   unchanged: the cash paid or received equals the value of the shares bought or sold.
   */
  lemma TradeNeutral(p: Portfolio, o: Order, d: Date, t: PriceTable)
    ensures Mark(Trade(p, o, t.close(d, o.ticker)), d, t) == Mark(p, d, t)
  {
    if o.kind == "BUY" {
      BuyNeutral(p, o, d, t);
    } else if o.kind == "SELL" {
      SellNeutral(p, o, d, t);
    }
  }

  lemma BuyNeutral(p: Portfolio, o: Order, d: Date, t: PriceTable)
    requires o.kind == "BUY"
    ensures Mark(Trade(p, o, t.close(d, o.ticker)), d, t) == Mark(p, d, t)
  {
    var price := t.close(d, o.ticker);
    var h := Put(p.holdings, o.ticker, Get(p.holdings, o.ticker) + o.quantity);
    var r := Trade(p, o, price);
    assert r.holdings == h;
    TradeCash(p, o, price);
    ExposureBuy(p.holdings, o.ticker, o.quantity, d, t);
    assert Mark(r, d, t) == r.cash + Exposure(h, d, t);
  }

  lemma SellNeutral(p: Portfolio, o: Order, d: Date, t: PriceTable)
    requires o.kind == "SELL"
    ensures Mark(Trade(p, o, t.close(d, o.ticker)), d, t) == Mark(p, d, t)
  {
    var price := t.close(d, o.ticker);
    var h := Put(p.holdings, o.ticker, Get(p.holdings, o.ticker) - o.quantity);
    var r := Trade(p, o, price);
    assert r.holdings == h;
    TradeCash(p, o, price);
    ExposureSell(p.holdings, o.ticker, o.quantity, d, t);
    assert Mark(r, d, t) == r.cash + Exposure(h, d, t);
  }

  /**
   Selling at the same price what was just bought restores the cash and every ticker's
   share count.
   */
  lemma BuySellRoundTrip(p: Portfolio, d: Date, k: Ticker, q: int, price: real)
    ensures Trade(Trade(p, Order(d, "BUY", k, q), price), Order(d, "SELL", k, q), price).cash == p.cash
    ensures forall u :: Get(Trade(Trade(p, Order(d, "BUY", k, q), price), Order(d, "SELL", k, q), price).holdings, u)
                     == Get(p.holdings, u)
  {
  }

  /** All the orders executed on one date together leave that date's marked value unchanged. */
  lemma {:induction false} ConsumeNeutral(c: Cursor, orders: seq<Order>, d: Date, t: PriceTable)
    requires c.orderIndex <= |orders|
    ensures Mark(Consume(c, orders, d, t).portfolio, d, t) == Mark(c.portfolio, d, t)
    decreases |orders| - c.orderIndex
  {
    if c.orderIndex < |orders| && orders[c.orderIndex].date == d {
      var o := orders[c.orderIndex];
      TradeNeutral(c.portfolio, o, d, t);
      ConsumeNeutral(Cursor(Trade(c.portfolio, o, t.close(d, o.ticker)), c.orderIndex + 1), orders, d, t);
    }
  }

  /** Entry k of the value series is date k and the marked value after the dates up to k. */
  lemma {:induction false} RunAt(c0: Cursor, orders: seq<Order>, ds: seq<Date>, t: PriceTable, k: nat)
    requires c0.orderIndex <= |orders|
    requires k < |ds|
    ensures Run(c0, orders, ds, t)[k] == (ds[k], Mark(StateAfter(c0, orders, ds[..k + 1], t).portfolio, ds[k], t))
    decreases |ds|
  {
    var n := |ds|;
    if k < n - 1 {
      RunAt(c0, orders, ds[..n - 1], t, k);
      assert ds[..n - 1][..k + 1] == ds[..k + 1];
    } else {
      assert ds[..k + 1] == ds;
    }
  }

  /** With no orders, every entry of the series is the initial cash. */
  lemma NoOrdersKeepCash(initialCash: real, t: PriceTable)
    ensures forall k :: 0 <= k < |Run(Start(initialCash), [], SortDates(t.index), t)| ==>
      Run(Start(initialCash), [], SortDates(t.index), t)[k].1 == initialCash
  {
    var ds := SortDates(t.index);
    forall k | 0 <= k < |ds|
      ensures Run(Start(initialCash), [], ds, t)[k].1 == initialCash
    {
      RunAt(Start(initialCash), [], ds, t, k);
    }
  }

  /** The sum of (price on d1 - price on d0) * holdings[k]: the profit of holding the positions. */
  function Gain(h: Holdings, d0: Date, d1: Date, t: PriceTable): real
  {
    if h == [] then 0.0
    else (t.close(d1, h[0].0) - t.close(d0, h[0].0)) * (h[0].1 as real) + Gain(h[1..], d0, d1, t)
  }

  lemma {:induction false} ExposureChange(h: Holdings, d0: Date, d1: Date, t: PriceTable)
    ensures Exposure(h, d1, t) - Exposure(h, d0, t) == Gain(h, d0, d1, t)
  {
    if h != [] {
      ExposureChange(h[1..], d0, d1, t);
      var p0, p1, q := t.close(d0, h[0].0), t.close(d1, h[0].0), h[0].1 as real;
      assert (p1 - p0) * q == p1 * q - p0 * q;
    }
  }

  /**
   The path is self-financing: from one date to the next the value changes by exactly the
   profit of the positions held after the first date, at the two dates' prices; the trades
   on the second date add nothing.
   */
  lemma SelfFinancing(c0: Cursor, orders: seq<Order>, ds: seq<Date>, t: PriceTable, k: nat)
    requires c0.orderIndex <= |orders|
    requires k + 1 < |ds|
    ensures Run(c0, orders, ds, t)[k + 1].1 - Run(c0, orders, ds, t)[k].1
         == Gain(StateAfter(c0, orders, ds[..k + 1], t).portfolio.holdings, ds[k], ds[k + 1], t)
  {
    RunAt(c0, orders, ds, t, k);
    RunAt(c0, orders, ds, t, k + 1);
    var s := StateAfter(c0, orders, ds[..k + 1], t);
    assert ds[..k + 2][..k + 1] == ds[..k + 1];
    StateAfterStep(c0, orders, ds[..k + 2], t);
    ConsumeNeutral(s, orders, ds[k + 1], t);
    ExposureChange(s.portfolio.holdings, ds[k], ds[k + 1], t);
  }

  /** Walking ds and then es is walking ds + es. */
  lemma {:induction false} StateAfterAppend(c0: Cursor, orders: seq<Order>, ds: seq<Date>, es: seq<Date>, t: PriceTable)
    requires c0.orderIndex <= |orders|
    ensures StateAfter(c0, orders, ds + es, t) == StateAfter(StateAfter(c0, orders, ds, t), orders, es, t)
    decreases |es|
  {
    if es == [] {
      assert ds + es == ds;
    } else {
      var n := |es|;
      var all, front := ds + es, ds + es[..n - 1];
      assert all[..|all| - 1] == front && all[|all| - 1] == es[n - 1];
      StateAfterAppend(c0, orders, ds, es[..n - 1], t);
      StateAfterStep(c0, orders, all, t);
      StateAfterStep(StateAfter(c0, orders, ds, t), orders, es, t);
    }
  }

  /** `order_index` never decreases from one date to a later one. */
  lemma OrderIndexMonotone(c0: Cursor, orders: seq<Order>, ds: seq<Date>, t: PriceTable, i: nat, j: nat)
    requires c0.orderIndex <= |orders|
    requires i <= j <= |ds|
    ensures StateAfter(c0, orders, ds[..i], t).orderIndex <= StateAfter(c0, orders, ds[..j], t).orderIndex
  {
    assert ds[..j] == ds[..i] + ds[i..j];
    StateAfterAppend(c0, orders, ds[..i], ds[i..j], t);
  }

  /**
   Once the order at the pointer is dated on none of the remaining dates, no further order
   is ever executed: the state stays put.
   */
  lemma {:induction false} Stall(c: Cursor, orders: seq<Order>, ds: seq<Date>, t: PriceTable)
    requires c.orderIndex < |orders|
    requires forall i :: 0 <= i < |ds| ==> ds[i] != orders[c.orderIndex].date
    ensures StateAfter(c, orders, ds, t) == c
    decreases |ds|
  {
    if ds != [] {
      Stall(c, orders, ds[..|ds| - 1], t);
    }
  }

  /** ... and every later entry is that same portfolio marked at the date's prices. */
  lemma StalledValues(c: Cursor, orders: seq<Order>, ds: seq<Date>, t: PriceTable)
    requires c.orderIndex < |orders|
    requires forall i :: 0 <= i < |ds| ==> ds[i] != orders[c.orderIndex].date
    ensures forall k :: 0 <= k < |ds| ==> Run(c, orders, ds, t)[k].1 == Mark(c.portfolio, ds[k], t)
  {
    forall k | 0 <= k < |ds|
      ensures Run(c, orders, ds, t)[k].1 == Mark(c.portfolio, ds[k], t)
    {
      RunAt(c, orders, ds, t, k);
      Stall(c, orders, ds[..k + 1], t);
    }
  }

  /** A one-row, one-column table. */
  function SingleQuote(d: Date, k: Ticker, price: real): PriceTable
  {
    PriceTable([d], [k], (_, _) => price)
  }

  /**
   Buying 100 shares at 150 with 5000 in cash is executed (cash becomes -10000), and the
   value on that date stays 5000.
   */
  lemma UncheckedBuy(d: Date)
    ensures StateAfter(Start(5000.0), [Order(d, "BUY", "AAPL", 100)], [d], SingleQuote(d, "AAPL", 150.0))
         == Cursor(Portfolio(-10000.0, [("AAPL", 100)]), 1)
    ensures Backtest(5000.0, [Order(d, "BUY", "AAPL", 100)], SingleQuote(d, "AAPL", 150.0)) == [(d, 5000.0)]
  {
    var t, os := SingleQuote(d, "AAPL", 150.0), [Order(d, "BUY", "AAPL", 100)];
    var after := Portfolio(-10000.0, [("AAPL", 100)]);
    assert SortDates(t.index) == [d];
    assert [d][..0] == [];
    assert Consume(Cursor(after, 1), os, d, t) == Cursor(after, 1);
    StateAfterStep(Start(5000.0), os, [d], t);
    assert Exposure([("AAPL", 100)][1..], d, t) == 0.0;
    assert Run(Start(5000.0), os, [d], t) == [] + [(d, Mark(after, d, t))];
  }

  /**
   Selling 50 shares never held at 150 with 10000 in cash is executed (a short position of
   50, cash 17500), and the value on that date stays 10000.
   */
  lemma UncheckedShortSale(d: Date)
    ensures StateAfter(Start(10000.0), [Order(d, "SELL", "AAPL", 50)], [d], SingleQuote(d, "AAPL", 150.0))
         == Cursor(Portfolio(17500.0, [("AAPL", -50)]), 1)
    ensures Backtest(10000.0, [Order(d, "SELL", "AAPL", 50)], SingleQuote(d, "AAPL", 150.0)) == [(d, 10000.0)]
  {
    var t, os := SingleQuote(d, "AAPL", 150.0), [Order(d, "SELL", "AAPL", 50)];
    var after := Portfolio(17500.0, [("AAPL", -50)]);
    assert SortDates(t.index) == [d];
    assert [d][..0] == [];
    assert Consume(Cursor(after, 1), os, d, t) == Cursor(after, 1);
    StateAfterStep(Start(10000.0), os, [d], t);
    assert Exposure([("AAPL", -50)][1..], d, t) == 0.0;
    assert Run(Start(10000.0), os, [d], t) == [] + [(d, Mark(after, d, t))];
  }

  class EquityBacktestEngine {
    const initialCash: real

    constructor (initialCash: real)
      ensures this.initialCash == initialCash
    {
      this.initialCash := initialCash;
    }

    method RunBacktest(orders: seq<Order>, data: PriceTable) returns (portfolioValues: seq<(Date, real)>)
      requires Distinct(data.index)
      ensures portfolioValues == Backtest(initialCash, orders, data)
    {
      var cash := initialCash;
      var holdings: Holdings := [];
      portfolioValues := [];
      var allDates := SortDates(data.index);
      var orderIndex: nat := 0;
      ghost var start := Start(initialCash);

      for i := 0 to |allDates|
        invariant orderIndex <= |orders|
        invariant Cursor(Portfolio(cash, holdings), orderIndex) == StateAfter(start, orders, allDates[..i], data)
        invariant portfolioValues == Run(start, orders, allDates[..i], data)
      {
        var currentDate := allDates[i];
        RunStep(start, orders, allDates, data, i);
        cash, holdings, orderIndex := ExecuteOrders(cash, holdings, orderIndex, orders, currentDate, data);
        var totalValue := MarkToMarket(cash, holdings, currentDate, data);
        portfolioValues := portfolioValues + [(currentDate, totalValue)];
      }
      assert allDates[..|allDates|] == allDates;
    }

    /** Running the same engine twice on the same inputs gives the same series. */
    method RerunIsIdentical(orders: seq<Order>, data: PriceTable) returns (first: seq<(Date, real)>, second: seq<(Date, real)>)
      requires Distinct(data.index)
      ensures first == second
    {
      first := RunBacktest(orders, data);
      second := RunBacktest(orders, data);
    }

    /** The inner `while` of one date: consumes the orders at the pointer dated currentDate. */
    static method ExecuteOrders(cash0: real, holdings0: Holdings, orderIndex0: nat, orders: seq<Order>, currentDate: Date, data: PriceTable)
      returns (cash: real, holdings: Holdings, orderIndex: nat)
      requires orderIndex0 <= |orders|
      ensures Cursor(Portfolio(cash, holdings), orderIndex) == Consume(Cursor(Portfolio(cash0, holdings0), orderIndex0), orders, currentDate, data)
    {
      cash, holdings, orderIndex := cash0, holdings0, orderIndex0;
      var numOrders := |orders|;
      ghost var goal := Consume(Cursor(Portfolio(cash0, holdings0), orderIndex0), orders, currentDate, data);
      while orderIndex < numOrders && orders[orderIndex].date == currentDate
        invariant orderIndex <= numOrders
        invariant Consume(Cursor(Portfolio(cash, holdings), orderIndex), orders, currentDate, data) == goal
        decreases numOrders - orderIndex
      {
        var order := orders[orderIndex];
        var price := data.close(currentDate, order.ticker);
        ConsumeStep(Cursor(Portfolio(cash, holdings), orderIndex), orders, currentDate, data);
        cash, holdings := ExecuteOrder(cash, holdings, order, price);
        orderIndex := orderIndex + 1;
      }
    }

    /** The body of the inner `while`: one BUY or SELL at the current price, unchecked. */
    static method ExecuteOrder(cash0: real, holdings0: Holdings, order: Order, price: real) returns (cash: real, holdings: Holdings)
      ensures Portfolio(cash, holdings) == Trade(Portfolio(cash0, holdings0), order, price)
    {
      cash, holdings := cash0, holdings0;
      var ticker := order.ticker;
      var quantity := order.quantity;
      if order.kind == "BUY" {
        var cost := price * (quantity as real);
        cash := cash - cost;
        holdings := Put(holdings, ticker, Get(holdings, ticker) + quantity);
      } else if order.kind == "SELL" {
        var proceeds := price * (quantity as real);
        cash := cash + proceeds;
        holdings := Put(holdings, ticker, Get(holdings, ticker) - quantity);
      }
    }

    /** The valuation loop over `holdings.items()` on one date. */
    static method MarkToMarket(cash: real, holdings: Holdings, currentDate: Date, data: PriceTable) returns (totalValue: real)
      ensures totalValue == Mark(Portfolio(cash, holdings), currentDate, data)
    {
      totalValue := cash;
      for j := 0 to |holdings|
        invariant totalValue + Exposure(holdings[j..], currentDate, data) == cash + Exposure(holdings, currentDate, data)
      {
        assert holdings[j..][1..] == holdings[j + 1..];
        var (hTicker, hQuantity) := holdings[j];
        var price := data.close(currentDate, hTicker);
        var positionValue := price * (hQuantity as real);
        totalValue := totalValue + positionValue;
      }
    }
  }
}
