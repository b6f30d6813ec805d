/**
 The performance report (`ExtendedMetrics.calculate`): eight statistics of a value series,
 its returns and, optionally, a benchmark's returns.

 Floating-point library routines (log, square root, sample standard deviation, Pearson
 correlation, interpolated quantile) are parameters of the model, collected in Numerics;
 a result None of one of them stands for NaN. The statistics computed with plain sums,
 products and comparisons are modelled on reals.
 */
module Metrics {
  import opened Wrappers
  import opened Series

  /** A value of the result dict: a number, NaN, or None (Python's `None`). */
  datatype Stat = Value(x: real) | NaN | Missing

  /** The library routines the report calls; None stands for a NaN result. */
  datatype Numerics = Numerics(
    log: real -> Option<real>,
    sqrt: real -> real,
    std: seq<real> -> Option<real>,
    corr: (seq<real>, seq<real>) -> Option<real>,
    quantile: (seq<real>, real) -> Option<real>)

  const RiskFreeRate: real := 0.0045
  const TradingDays: real := 252.0

  function FromOption(x: Option<real>): Stat
  {
    if x.Some? then Value(x.value) else NaN
  }

  /** pandas `mean`: NaN for an empty series. */
  function Mean(s: seq<real>): (m: Stat)
    ensures m.NaN? <==> s == []
    ensures s != [] ==> m == Value(Sum(s) / (|s| as real))
  {
    if s == [] then NaN else Value(Sum(s) / (|s| as real))
  }

  /** 1 + returns, element by element. */
  function OnePlus(s: seq<real>): (r: seq<real>)
    ensures |r| == |s|
  {
    seq(|s|, i requires 0 <= i < |s| => 1.0 + s[i])
  }

  /**
   `cummax`: the running maximum, scanned left to right (each entry the larger of the value
   and the entry before it); entry i is the maximum of the values up to i.
   */
  function RunningMax(v: seq<real>): (rm: seq<real>)
    ensures |rm| == |v|
    ensures forall i :: 0 <= i < |v| ==> rm[i] == Max(v[..i + 1])
  {
    if v == [] then []
    else
      var n := |v|;
      var prev := RunningMax(v[..n - 1]);
      var top := if n == 1 || v[n - 1] > prev[n - 2] then v[n - 1] else prev[n - 2];
      RunningMaxStep(v, prev, top);
      prev + [top]
  }

  /** One step of the scan: appending the larger of the new value and the last maximum. */
  lemma RunningMaxStep(v: seq<real>, prev: seq<real>, top: real)
    requires |v| > 0 && |prev| == |v| - 1
    requires forall i :: 0 <= i < |prev| ==> prev[i] == Max(v[..|v| - 1][..i + 1])
    requires top == if |v| == 1 || v[|v| - 1] > prev[|v| - 2] then v[|v| - 1] else prev[|v| - 2]
    ensures forall i :: 0 <= i < |v| ==> (prev + [top])[i] == Max(v[..i + 1])
  {
    var n := |v|;
    forall i | 0 <= i < n
      ensures (prev + [top])[i] == Max(v[..i + 1])
    {
      if i < n - 1 {
        assert v[..n - 1][..i + 1] == v[..i + 1];
      } else {
        assert v[..n] == v;
        if n > 1 {
          assert v[..n - 1][..n - 1] == v[..n - 1];
        }
      }
    }
  }

  /** The maximum of a prefix is one of its values and bounds each of them. */
  lemma PrefixMax(v: seq<real>, i: nat)
    requires i < |v|
    ensures v[i] <= Max(v[..i + 1])
    ensures exists j :: 0 <= j <= i && Max(v[..i + 1]) == v[j]
  {
    var w := v[..i + 1];
    assert w[i] == v[i];
    var j :| 0 <= j < |w| && w[j] == Max(w);
    assert w[j] == v[j];
  }

  /** A longer prefix has a maximum at least as large. */
  lemma PrefixMaxMonotone(v: seq<real>, i: nat, j: nat)
    requires i <= j < |v|
    ensures Max(v[..i + 1]) <= Max(v[..j + 1])
  {
    var w := v[..i + 1];
    var k :| 0 <= k < |w| && w[k] == Max(w);
    assert v[..j + 1][k] == w[k];
  }

  /** The running maximum is at least the value at every index and starts at the first value. */
  lemma RunningMaxAbove(v: seq<real>)
    ensures forall i :: 0 <= i < |v| ==> v[i] <= RunningMax(v)[i]
    ensures |v| > 0 ==> RunningMax(v)[0] == v[0]
  {
    forall i | 0 <= i < |v|
      ensures v[i] <= RunningMax(v)[i]
    {
      PrefixMax(v, i);
    }
    if |v| > 0 {
      assert v[..1] == [v[0]];
    }
  }

  /** The running maximum is always one of the values seen so far. */
  lemma RunningMaxAttained(v: seq<real>)
    ensures forall i :: 0 <= i < |v| ==> RunningMax(v)[i] in v[..i + 1]
  {
    forall i | 0 <= i < |v|
      ensures RunningMax(v)[i] in v[..i + 1]
    {
      var w := v[..i + 1];
      var j :| 0 <= j < |w| && w[j] == Max(w);
    }
  }

  /** The running maximum never decreases. */
  lemma RunningMaxMonotone(v: seq<real>)
    ensures forall i, j :: 0 <= i <= j < |v| ==> RunningMax(v)[i] <= RunningMax(v)[j]
  {
    forall i, j | 0 <= i <= j < |v|
      ensures RunningMax(v)[i] <= RunningMax(v)[j]
    {
      PrefixMaxMonotone(v, i, j);
    }
  }

  /** Some running maximum is zero, where the division by it leaves the reals. */
  predicate HitsZero(rm: seq<real>)
  {
    exists i :: 0 <= i < |rm| && rm[i] == 0.0
  }

  /** `portfolio_values / running_max - 1`, for a running maximum with no zero. */
  function Drawdowns(v: seq<real>, rm: seq<real>): (dd: seq<real>)
    requires |rm| == |v| && !HitsZero(rm)
    ensures |dd| == |v|
  {
    seq(|v|, i requires 0 <= i < |v| => v[i] / rm[i] - 1.0)
  }

  /** `drawdown.min()`: NaN for an empty series and, in this model, for a zero running maximum. */
  function MaxDrawdown(v: seq<real>): (m: Stat)
    ensures m != Missing
    ensures m.NaN? <==> v == [] || HitsZero(RunningMax(v))
    ensures m.Value? ==> forall i :: 0 <= i < |v| ==> m.x <= Drawdowns(v, RunningMax(v))[i]
    ensures m.Value? ==> exists i :: 0 <= i < |v| && m.x == Drawdowns(v, RunningMax(v))[i]
  {
    var rm := RunningMax(v);
    if v == [] || HitsZero(rm) then NaN else Value(Min(Drawdowns(v, rm)))
  }

  /** `(mean / std) * sqrt(252)`, NaN when the std is NaN or zero. */
  function SharpeRatio(excess: seq<real>, np: Numerics): (r: Stat)
    ensures r != Missing
    ensures r.NaN? <==> excess == [] || np.std(excess).None? || np.std(excess).value == 0.0
    ensures r.Value? ==> r.x == Mean(excess).x / np.std(excess).value * np.sqrt(TradingDays)
  {
    var sd := np.std(excess);
    if excess == [] || sd.None? || sd.value == 0.0 then NaN
    else Value(Sum(excess) / (|excess| as real) / sd.value * np.sqrt(TradingDays))
  }

  /** The keys of the report dict. */
  datatype Key = Daily | Cumulative | Log | Volatility | InformationCoefficient | Sharpe | Drawdown | VaR

  /** The key's text in the dict. */
  function Label(k: Key): string
  {
    match k
    case Daily => "Daily Return"
    case Cumulative => "Cumulative Return"
    case Log => "Log Return"
    case Volatility => "Volatility"
    case InformationCoefficient => "Information Coefficient"
    case Sharpe => "Sharpe Ratio"
    case Drawdown => "Max Drawdown"
    case VaR => "VaR 5%"
  }

  const AllKeys: set<Key> := {Daily, Cumulative, Log, Volatility, InformationCoefficient, Sharpe, Drawdown, VaR}

  /** The defined entries of a series, in order: what pandas' `skipna` keeps. */
  function Defined(xs: seq<Option<real>>): (d: seq<real>)
    ensures |d| <= |xs|
    ensures d == [] <==> forall i :: 0 <= i < |xs| ==> xs[i].None?
    ensures (forall i :: 0 <= i < |xs| ==> xs[i].Some?) ==>
      |d| == |xs| && forall i :: 0 <= i < |xs| ==> d[i] == xs[i].value
  {
    if xs == [] then []
    else
      var rest := Defined(xs[1..]);
      assert forall i :: 1 <= i < |xs| ==> xs[i] == xs[1..][i - 1];
      if xs[0].Some? then [xs[0].value] + rest else rest
  }

  /**
   Keeping the defined entries distributes over concatenation; with its values on one
   entry (DefinedOne) this fixes both the order and the number of times each value is kept.
   */
  lemma {:induction false} DefinedAppend(a: seq<Option<real>>, b: seq<Option<real>>)
    ensures Defined(a + b) == Defined(a) + Defined(b)
    decreases |a|
  {
    if a != [] {
      var ab := a + b;
      assert ab[0] == a[0] && ab[1..] == a[1..] + b;
      DefinedAppend(a[1..], b);
      assert Defined(ab) == (if a[0].Some? then [a[0].value] else []) + Defined(a[1..] + b);
    } else {
      assert a + b == b;
    }
  }

  /** The values kept are exactly those that occur defined. */
  lemma {:induction false} DefinedMembers(xs: seq<Option<real>>)
    ensures forall y :: y in Defined(xs) <==> Some(y) in xs
    decreases |xs|
  {
    if xs != [] {
      DefinedMembers(xs[1..]);
      assert xs == [xs[0]] + xs[1..];
    }
  }

  /** On one entry, `Some(y)` is kept as y and None is dropped. */
  lemma DefinedOne(y: real)
    ensures Defined([Some(y)]) == [y]
    ensures Defined([None]) == []
  {
    assert [Some(y)][1..] == [];
    var none: seq<Option<real>> := [None];
    assert none[1..] == [];
  }

  /**
   `np.log(1 + returns).mean()`: the mean of the defined logarithms of 1 + r; a NaN
   logarithm is skipped, and the result is NaN only when no logarithm is defined.
   */
  function LogReturn(rets: seq<real>, np: Numerics): (r: Stat)
    ensures r != Missing
    ensures r.NaN? <==> forall i :: 0 <= i < |rets| ==> np.log(1.0 + rets[i]).None?
  {
    Mean(Defined(Logs(rets, np)))
  }

  /** The logarithms of 1 + r, None where the log is NaN. */
  function Logs(rets: seq<real>, np: Numerics): (logs: seq<Option<real>>)
    ensures |logs| == |rets|
    ensures forall i :: 0 <= i < |rets| ==> logs[i] == np.log(1.0 + rets[i])
  {
    seq(|rets|, i requires 0 <= i < |rets| => np.log(1.0 + rets[i]))
  }

  /** When every logarithm is defined, Log Return is the plain mean of all of them. */
  lemma LogReturnAllDefined(rets: seq<real>, np: Numerics)
    requires forall i :: 0 <= i < |rets| ==> np.log(1.0 + rets[i]).Some?
    ensures LogReturn(rets, np) == Mean(seq(|rets|, i requires 0 <= i < |rets| => np.log(1.0 + rets[i]).value))
  {
    var all := seq(|rets|, i requires 0 <= i < |rets| => np.log(1.0 + rets[i]).value);
    assert Defined(Logs(rets, np)) == all;
  }

  /**
   A return whose logarithm is NaN is skipped wherever it stands: Log Return is that of
   the other returns.
   */
  lemma LogReturnSkips(a: seq<real>, x: real, b: seq<real>, np: Numerics)
    requires np.log(1.0 + x).None?
    ensures LogReturn(a + [x] + b, np) == LogReturn(a + b, np)
  {
    var la, lb := Logs(a, np), Logs(b, np);
    SkipLogs(a, x, b, np);
    DefinedSkip(la, lb);
    var d := Defined(la + lb);
    assert LogReturn(a + [x] + b, np) == Mean(d);
  }

  /** The logarithms around a NaN one, split at it. */
  lemma SkipLogs(a: seq<real>, x: real, b: seq<real>, np: Numerics)
    requires np.log(1.0 + x).None?
    ensures Logs(a + [x] + b, np) == Logs(a, np) + [None] + Logs(b, np)
    ensures Logs(a + b, np) == Logs(a, np) + Logs(b, np)
  {
    LogsAppend(a + [x], b, np);
    LogsAppend(a, [x], np);
    LogsAppend(a, b, np);
    assert Logs([x], np) == [None];
  }

  /** Dropping one NaN entry keeps the same defined entries. */
  lemma DefinedSkip(la: seq<Option<real>>, lb: seq<Option<real>>)
    ensures Defined(la + [None] + lb) == Defined(la + lb)
  {
    DefinedAppend(la + [None], lb);
    DefinedAppend(la, [None]);
    DefinedAppend(la, lb);
    DefinedOne(0.0);
  }

  lemma LogsAppend(a: seq<real>, b: seq<real>, np: Numerics)
    ensures Logs(a + b, np) == Logs(a, np) + Logs(b, np)
  {
    assert forall i :: |a| <= i < |a + b| ==> (a + b)[i] == b[i - |a|];
  }

  /**
   A return of -2 makes 1 + r negative and its log NaN; pandas skips it, so the returns
   [0, -2] have Log Return log(1) = 0.
   */
  lemma LogReturnSkipsNaN(np: Numerics)
    requires np.log(1.0) == Some(0.0) && np.log(-1.0) == None
    ensures LogReturn([0.0, -2.0], np) == Value(0.0)
  {
    var logs := Logs([0.0, -2.0], np);
    assert logs == [Some(0.0), None];
    assert logs[1..][1..] == [];
    assert Defined(logs) == [0.0];
    assert Sum([0.0]) == 0.0;
  }

  /** The value stored under key k: one assignment of `calculate` each. */
  function Entry(k: Key, values: seq<real>, rets: seq<real>, benchmark: Option<seq<real>>, np: Numerics): (r: Stat)
    ensures r == Missing <==> k == InformationCoefficient && benchmark.None?
  {
    match k
    case Daily => Mean(rets)
    case Cumulative => Value(Prod(OnePlus(rets)) - 1.0)
    case Log => LogReturn(rets, np)
    case Volatility => var sd := np.std(rets); if sd.Some? then Value(sd.value * np.sqrt(TradingDays)) else NaN
    case InformationCoefficient => if benchmark.Some? then FromOption(np.corr(rets, benchmark.value)) else Missing
    case Sharpe => SharpeRatio(Shift(rets, RiskFreeRate / TradingDays), np)
    case Drawdown => MaxDrawdown(values)
    case VaR => FromOption(np.quantile(rets, 0.05))
  }

  /** `calculate(portfolio_values, returns, benchmark_returns)` */
  function Calculate(values: seq<real>, rets: seq<real>, benchmark: Option<seq<real>>, np: Numerics): (m: map<Key, Stat>)
    ensures m.Keys == AllKeys
    ensures m[InformationCoefficient] == Missing <==> benchmark.None?
    ensures forall k :: k in m && k != InformationCoefficient ==> m[k] != Missing
    ensures m[Daily] == Mean(rets) && m[Cumulative] == Value(Prod(OnePlus(rets)) - 1.0)
    ensures m[Drawdown] == MaxDrawdown(values)
  {
    map k | k in AllKeys :: Entry(k, values, rets, benchmark, np)
  }

  /** The report has exactly eight entries, under eight different texts. */
  lemma EightKeys()
    ensures |AllKeys| == 8
    ensures forall a, b :: Label(a) == Label(b) ==> a == b
    ensures forall k :: Label(k) != "Beta" && Label(k) != "Alpha"
  {
    forall a, b | Label(a) == Label(b)
      ensures a == b
    {
      assert |Label(a)| == |Label(b)| && Label(a)[0] == Label(b)[0];
    }
  }

  // ---------------------------------------------------------------------------------
  // Properties of the report
  // ---------------------------------------------------------------------------------

  /** The daily return lies between the smallest and the largest return. */
  lemma DailyReturnBounds(rets: seq<real>)
    requires rets != []
    ensures Min(rets) <= Mean(rets).x <= Max(rets)
  {
    var n := |rets| as real;
    SumBounds(rets, Min(rets), Max(rets));
    DivideBounds(Sum(rets), n, Min(rets), Max(rets));
  }

  /**
   Subtracting the daily risk-free rate from every return lowers the mean by that rate:
   mean(excess) = mean(returns) - 0.0045 / 252.
   */
  lemma ExcessMeanShift(rets: seq<real>)
    requires rets != []
    ensures Mean(Shift(rets, RiskFreeRate / TradingDays)).x == Mean(rets).x - RiskFreeRate / TradingDays
  {
    var c, n := RiskFreeRate / TradingDays, |rets| as real;
    SumShift(rets, c);
    ShiftedMean(Sum(rets), n, c);
  }

  lemma ShiftedMean(s: real, n: real, c: real)
    requires n > 0.0
    ensures (s - n * c) / n == s / n - c
  {
  }

  /**
   The return series built from a value series (`pct_change().dropna()`, which divides each
   value by the one before it and subtracts 1), for nonzero values.
   */
  function PctChange(v: seq<real>): (r: seq<real>)
    requires forall i :: 0 <= i < |v| ==> v[i] != 0.0
    ensures |r| == if v == [] then 0 else |v| - 1
  {
    if v == [] then []
    else seq(|v| - 1, i requires 0 <= i < |v| - 1 => v[i + 1] / v[i] - 1.0)
  }

  /** Compounding value i by return i gives value i + 1: the returns rebuild the values. */
  lemma PctChangeCompounds(v: seq<real>)
    requires forall i :: 0 <= i < |v| ==> v[i] != 0.0
    ensures forall i :: 0 <= i < |PctChange(v)| ==> v[i] * (1.0 + PctChange(v)[i]) == v[i + 1]
  {
    forall i | 0 <= i < |PctChange(v)|
      ensures v[i] * (1.0 + PctChange(v)[i]) == v[i + 1]
    {
      Compound(v[i], v[i + 1]);
    }
  }

  lemma Compound(a: real, b: real)
    requires a != 0.0
    ensures a * (1.0 + (b / a - 1.0)) == b
  {
  }

  lemma RatioStep(a: real, b: real, c: real)
    requires a != 0.0 && b != 0.0
    ensures (b / a) * (c / b) == c / a
    ensures a / a == 1.0
  {
  }

  /** The product of 1 + r over the returns of v telescopes to the last value over the first. */
  lemma {:induction false} Telescoping(v: seq<real>)
    requires |v| > 0
    requires forall i :: 0 <= i < |v| ==> v[i] != 0.0
    ensures Prod(OnePlus(PctChange(v))) == v[|v| - 1] / v[0]
  {
    var n := |v|;
    if n == 1 {
      assert OnePlus(PctChange(v)) == [];
      RatioStep(v[0], v[0], v[0]);
      assert v[0] / v[0] == 1.0;
    } else {
      var w := v[..n - 1];
      Telescoping(w);
      var s, sw := OnePlus(PctChange(v)), OnePlus(PctChange(w));
      assert s[..n - 2] == sw;
      assert s[n - 2] == v[n - 1] / v[n - 2];
      RatioStep(v[0], v[n - 2], v[n - 1]);
    }
  }

  /**
   Fed the returns of its own value series, the report's cumulative return is the last
   value over the first, minus one.
   */
  lemma CumulativeFromValues(values: seq<real>, np: Numerics)
    requires |values| > 0
    requires forall i :: 0 <= i < |values| ==> values[i] != 0.0
    ensures Calculate(values, PctChange(values), None, np)[Cumulative] == Value(values[|values| - 1] / values[0] - 1.0)
  {
    Telescoping(values);
  }

  lemma RatioRange(x: real, m: real)
    requires 0.0 < x <= m
    ensures 0.0 < x / m <= 1.0
  {
  }

  /** For positive values every drawdown lies in (-1, 0]. */
  lemma DrawdownRange(v: seq<real>)
    requires forall i :: 0 <= i < |v| ==> v[i] > 0.0
    ensures !HitsZero(RunningMax(v))
    ensures forall i :: 0 <= i < |v| ==> -1.0 < Drawdowns(v, RunningMax(v))[i] <= 0.0
  {
    var rm := RunningMax(v);
    forall i | 0 <= i < |v|
      ensures 0.0 < v[i] <= rm[i]
    {
      PrefixMax(v, i);
    }
    assert !HitsZero(rm);
    forall i | 0 <= i < |v|
      ensures -1.0 < Drawdowns(v, rm)[i] <= 0.0
    {
      DrawdownAt(v, rm, i);
    }
  }

  /** One drawdown of a positive value under a running maximum above it. */
  lemma DrawdownAt(v: seq<real>, rm: seq<real>, i: nat)
    requires |rm| == |v| && !HitsZero(rm)
    requires i < |v| && 0.0 < v[i] <= rm[i]
    ensures -1.0 < Drawdowns(v, rm)[i] <= 0.0
  {
    RatioRange(v[i], rm[i]);
  }

  /** For positive values the maximum drawdown lies in (-1, 0]. */
  lemma MaxDrawdownRange(v: seq<real>)
    requires v != []
    requires forall i :: 0 <= i < |v| ==> v[i] > 0.0
    ensures MaxDrawdown(v).Value?
    ensures -1.0 < MaxDrawdown(v).x <= 0.0
  {
    DrawdownRange(v);
    var dd := Drawdowns(v, RunningMax(v));
    var j :| 0 <= j < |dd| && dd[j] == Min(dd);
  }

  /** The maximum of a prefix of a series that never falls is its last element. */
  lemma NoFallPrefixMax(v: seq<real>, i: nat)
    requires forall i, j :: 0 <= i <= j < |v| ==> v[i] <= v[j]
    requires i < |v|
    ensures Max(v[..i + 1]) == v[i]
  {
    PrefixMax(v, i);
    var j :| 0 <= j <= i && Max(v[..i + 1]) == v[j];
    assert v[j] <= v[i];
  }

  /** The running maximum of a series that never falls is the series itself. */
  lemma NoFallRunningMax(v: seq<real>)
    requires forall i, j :: 0 <= i <= j < |v| ==> v[i] <= v[j]
    ensures forall i :: 0 <= i < |v| ==> RunningMax(v)[i] == v[i]
  {
    forall i | 0 <= i < |v|
      ensures RunningMax(v)[i] == v[i]
    {
      NoFallPrefixMax(v, i);
    }
  }

  /** A positive series that never falls has no drawdown. */
  lemma NoFallNoDrawdown(v: seq<real>)
    requires v != []
    requires forall i :: 0 <= i < |v| ==> v[i] > 0.0
    requires forall i, j :: 0 <= i <= j < |v| ==> v[i] <= v[j]
    ensures MaxDrawdown(v) == Value(0.0)
  {
    var rm := RunningMax(v);
    NoFallRunningMax(v);
    assert !HitsZero(rm);
    var dd := Drawdowns(v, rm);
    forall i | 0 <= i < |dd|
      ensures dd[i] == 0.0
    {
      RatioStep(v[i], v[i], v[i]);
    }
    var j :| 0 <= j < |dd| && dd[j] == Min(dd);
  }
}
