/**
 `calculate_vwap`: for every ticker of a downloaded price table, the running
 volume-weighted average price, stored next to the ticker's adjusted close and volume.

 The download is modelled by the ticker level of its column index and, per ticker, the
 two columns read from it. A missing volume makes pandas produce NaN or an infinity where
 the cumulative volume is zero; here those positions hold no value.
 */
module Vwap {
  import opened Wrappers
  import opened Series
  import opened Market

  /** One ticker's block of the download: its adjusted closes and volumes, row by row. */
  datatype Quotes = Quotes(adjClose: seq<real>, volume: seq<real>)

  /** The download: the tickers of the first column level and each ticker's block. */
  datatype Download = Download(levels: set<Ticker>, quotes: map<Ticker, Quotes>)

  /** The three columns of the frame stored for one ticker. */
  datatype TickerFrame = TickerFrame(adjClose: seq<real>, volume: seq<real>, vwap: seq<Option<real>>)

  /** Every ticker of the level has a block, whose two columns share the table's rows. */
  predicate WellFormed(data: Download)
  {
    forall k :: k in data.levels ==>
      k in data.quotes && |data.quotes[k].adjClose| == |data.quotes[k].volume|
  }

  /** pandas `cumsum`: position i holds the sum of the first i + 1 elements. */
  function CumSum(s: seq<real>): (c: seq<real>)
    ensures |c| == |s|
    ensures forall i :: 0 <= i < |s| ==> c[i] == Sum(s[..i + 1])
  {
    if s == [] then []
    else
      var s' := s[..|s| - 1];
      var c' := CumSum(s');
      assert s[..|s|] == s;
      assert forall i | 0 <= i < |s'| :: c'[i] == Sum(s[..i + 1]) by {
        forall i | 0 <= i < |s'|
          ensures c'[i] == Sum(s[..i + 1])
        {
          assert s'[..i + 1] == s[..i + 1];
        }
      }
      c' + [Sum(s)]
  }

  /** Element-wise product of two aligned columns (`adj_close * volume`). */
  function Times(p: seq<real>, v: seq<real>): (r: seq<real>)
    requires |p| == |v|
    ensures |r| == |p|
  {
    seq(|p|, i requires 0 <= i < |p| => p[i] * v[i])
  }

  /** Element-wise quotient; a zero denominator gives no value. */
  function Ratio(a: seq<real>, b: seq<real>): (r: seq<Option<real>>)
    requires |a| == |b|
    ensures |r| == |a|
    ensures forall i :: 0 <= i < |r| ==> (r[i].None? <==> b[i] == 0.0)
    ensures forall i :: 0 <= i < |r| && r[i].Some? ==> r[i].value * b[i] == a[i]
  {
    seq(|a|, i requires 0 <= i < |a| => if b[i] == 0.0 then None else Some(a[i] / b[i]))
  }

  /** `(adj_close * volume).cumsum() / volume.cumsum()` */
  function TickerVwap(p: seq<real>, v: seq<real>): (r: seq<Option<real>>)
    requires |p| == |v|
    ensures |r| == |p|
  {
    Ratio(CumSum(Times(p, v)), CumSum(v))
  }

  /** `calculate_vwap(data)`: one frame per ticker of the level. */
  method CalculateVwap(data: Download) returns (vwapData: map<Ticker, TickerFrame>)
    requires WellFormed(data)
    ensures vwapData.Keys == data.levels
    ensures forall k :: k in vwapData ==>
      vwapData[k].adjClose == data.quotes[k].adjClose && vwapData[k].volume == data.quotes[k].volume
    ensures forall k :: k in vwapData ==>
      vwapData[k].vwap == TickerVwap(data.quotes[k].adjClose, data.quotes[k].volume)
  {
    vwapData := map[];
    var todo := data.levels;
    while todo != {}
      invariant todo <= data.levels
      invariant vwapData.Keys == data.levels - todo
      invariant forall k :: k in vwapData ==>
        vwapData[k].adjClose == data.quotes[k].adjClose && vwapData[k].volume == data.quotes[k].volume
      invariant forall k :: k in vwapData ==>
        vwapData[k].vwap == TickerVwap(data.quotes[k].adjClose, data.quotes[k].volume)
      decreases todo
    {
      var ticker :| ticker in todo;
      var adjClose := data.quotes[ticker].adjClose;
      var volume := data.quotes[ticker].volume;
      var vwap := TickerVwap(adjClose, volume);
      vwapData := vwapData[ticker := TickerFrame(adjClose, volume, vwap)];
      todo := todo - {ticker};
    }
  }

  // ---------------------------------------------------------------------------------
  // Properties of the running VWAP
  // ---------------------------------------------------------------------------------

  /** The first k products are the products of the first k prices and volumes. */
  lemma TimesPrefix(p: seq<real>, v: seq<real>, k: nat)
    requires |p| == |v| && k <= |p|
    ensures Times(p, v)[..k] == Times(p[..k], v[..k])
  {
    var a, b := Times(p, v)[..k], Times(p[..k], v[..k]);
    forall j | 0 <= j < k
      ensures a[j] == b[j]
    {
      assert a[j] == p[j] * v[j];
      assert b[j] == p[..k][j] * v[..k][j];
    }
  }

  /** (x * w) / w == x for a nonzero w. */
  lemma Cancel(x: real, w: real)
    requires w != 0.0
    ensures (x * w) / w == x
  {
  }

  /** The sum of the element-wise products is the weighted sum. */
  lemma {:induction false} SumTimes(p: seq<real>, v: seq<real>)
    requires |p| == |v|
    ensures Sum(Times(p, v)) == Dot(p, v)
  {
    if p != [] {
      var n := |p|;
      TimesPrefix(p, v, n - 1);
      SumTimes(p[..n - 1], v[..n - 1]);
    }
  }

  /**
   The VWAP at row i is the price weighted by volume over rows 0..i, divided by the volume
   over those rows; it has no value exactly when that volume is zero.
   */
  lemma VwapFormula(p: seq<real>, v: seq<real>, i: nat)
    requires |p| == |v| && i < |p|
    ensures TickerVwap(p, v)[i] ==
      if Sum(v[..i + 1]) == 0.0 then None else Some(Dot(p[..i + 1], v[..i + 1]) / Sum(v[..i + 1]))
  {
    TimesPrefix(p, v, i + 1);
    SumTimes(p[..i + 1], v[..i + 1]);
  }

  /** With a nonzero first volume, the first VWAP is the first price. */
  lemma VwapFirst(p: seq<real>, v: seq<real>)
    requires |p| == |v| && |p| > 0 && v[0] != 0.0
    ensures TickerVwap(p, v)[0] == Some(p[0])
  {
    VwapFormula(p, v, 0);
    assert v[..1] == [v[0]] && p[..1] == [p[0]];
    assert [v[0]][..0] == [] && [p[0]][..0] == [];
    assert Dot(p[..1], v[..1]) == p[0] * v[0] && Sum(v[..1]) == v[0];
    Cancel(p[0], v[0]);
    assert Dot(p[..1], v[..1]) / Sum(v[..1]) == p[0];
    assert TickerVwap(p, v)[0] == Some(Dot(p[..1], v[..1]) / Sum(v[..1]));
  }

  /**
   With nonnegative volumes and a positive cumulative volume, the VWAP at row i lies
   between the lowest and the highest price of rows 0..i.
   */
  lemma VwapBounds(p: seq<real>, v: seq<real>, i: nat)
    requires |p| == |v| && i < |p|
    requires forall j :: 0 <= j <= i ==> v[j] >= 0.0
    requires Sum(v[..i + 1]) > 0.0
    ensures TickerVwap(p, v)[i].Some?
    ensures Min(p[..i + 1]) <= TickerVwap(p, v)[i].value <= Max(p[..i + 1])
  {
    var ps := p[..i + 1];
    VwapWithin(p, v, i, Min(ps), Max(ps));
  }

  /** The same bound for any lo and hi enclosing the prices of rows 0..i. */
  lemma VwapWithin(p: seq<real>, v: seq<real>, i: nat, lo: real, hi: real)
    requires |p| == |v| && i < |p|
    requires forall j :: 0 <= j <= i ==> lo <= p[j] <= hi
    requires forall j :: 0 <= j <= i ==> v[j] >= 0.0
    requires Sum(v[..i + 1]) > 0.0
    ensures TickerVwap(p, v)[i].Some?
    ensures lo <= TickerVwap(p, v)[i].value <= hi
  {
    var ps, vs := p[..i + 1], v[..i + 1];
    VwapFormula(p, v, i);
    assert forall j :: 0 <= j < |vs| ==> vs[j] == v[j];
    assert forall j :: 0 <= j < |ps| ==> ps[j] == p[j];
    DotBounds(ps, vs, lo, hi);
    DivideBounds(Dot(ps, vs), Sum(vs), lo, hi);
  }

  /** A constant price gives that price as VWAP wherever the cumulative volume is nonzero. */
  lemma VwapConstant(p: seq<real>, v: seq<real>, c: real)
    requires |p| == |v|
    requires forall j :: 0 <= j < |p| ==> p[j] == c
    ensures forall i :: 0 <= i < |p| ==>
      TickerVwap(p, v)[i] == if Sum(v[..i + 1]) == 0.0 then None else Some(c)
  {
    forall i | 0 <= i < |p|
      ensures TickerVwap(p, v)[i] == if Sum(v[..i + 1]) == 0.0 then None else Some(c)
    {
      VwapFormula(p, v, i);
      DotConstant(p[..i + 1], v[..i + 1], c);
      var total := Sum(v[..i + 1]);
      if total != 0.0 {
        Cancel(c, total);
        assert Dot(p[..i + 1], v[..i + 1]) / total == c;
        assert TickerVwap(p, v)[i] == Some(c);
      }
    }
  }
}
