/**
 Real-valued series arithmetic shared by the metrics, the moving average and VWAP:
 sums, products, weighted sums, minimum and maximum, with the bounds used by the lemmas.
 Every fold is left-recursive (on the last element), the order in which a cumulative
 sum or product over a series is built.
 */
module Series {

  /** Sum of a series (pandas `sum`, `cumsum` at the last position). */
  function Sum(s: seq<real>): real
  {
    if s == [] then 0.0 else Sum(s[..|s| - 1]) + s[|s| - 1]
  }

  /** Product of a series (pandas `prod`). */
  function Prod(s: seq<real>): real
  {
    if s == [] then 1.0 else Prod(s[..|s| - 1]) * s[|s| - 1]
  }

  /** Sum of the element-wise products p[i] * v[i]. */
  function Dot(p: seq<real>, v: seq<real>): real
    requires |p| == |v|
  {
    if p == [] then 0.0 else Dot(p[..|p| - 1], v[..|v| - 1]) + p[|p| - 1] * v[|v| - 1]
  }

  function Min(s: seq<real>): (m: real)
    requires |s| > 0
    ensures forall i :: 0 <= i < |s| ==> m <= s[i]
    ensures exists i :: 0 <= i < |s| && s[i] == m
  {
    if |s| == 1 then s[0]
    else
      var m' := Min(s[..|s| - 1]);
      assert forall i :: 0 <= i < |s| - 1 ==> s[..|s| - 1][i] == s[i];
      if s[|s| - 1] < m' then s[|s| - 1] else m'
  }

  function Max(s: seq<real>): (m: real)
    requires |s| > 0
    ensures forall i :: 0 <= i < |s| ==> s[i] <= m
    ensures exists i :: 0 <= i < |s| && s[i] == m
  {
    if |s| == 1 then s[0]
    else
      var m' := Max(s[..|s| - 1]);
      assert forall i :: 0 <= i < |s| - 1 ==> s[..|s| - 1][i] == s[i];
      if s[|s| - 1] > m' then s[|s| - 1] else m'
  }

  /** Every element shifted by -c (pandas `s - c`). */
  function Shift(s: seq<real>, c: real): (r: seq<real>)
    ensures |r| == |s|
  {
    seq(|s|, i requires 0 <= i < |s| => s[i] - c)
  }

  lemma {:induction false} SumShift(s: seq<real>, c: real)
    ensures Sum(Shift(s, c)) == Sum(s) - (|s| as real) * c
  {
    if s != [] {
      var n := |s|;
      assert Shift(s, c)[..n - 1] == Shift(s[..n - 1], c);
      SumShift(s[..n - 1], c);
    }
  }

  /** A series bounded by lo and hi sums to between |s|*lo and |s|*hi. */
  lemma {:induction false} SumBounds(s: seq<real>, lo: real, hi: real)
    requires forall i :: 0 <= i < |s| ==> lo <= s[i] <= hi
    ensures (|s| as real) * lo <= Sum(s) <= (|s| as real) * hi
  {
    if s != [] {
      SumBounds(s[..|s| - 1], lo, hi);
    }
  }

  /** With nonnegative weights, a weighted sum lies between lo and hi times the total weight. */
  lemma {:induction false} DotBounds(p: seq<real>, v: seq<real>, lo: real, hi: real)
    requires |p| == |v|
    requires forall i :: 0 <= i < |p| ==> lo <= p[i] <= hi
    requires forall i :: 0 <= i < |v| ==> 0.0 <= v[i]
    ensures lo * Sum(v) <= Dot(p, v) <= hi * Sum(v)
  {
    if p != [] {
      var n := |p|;
      var p', v' := p[..n - 1], v[..n - 1];
      assert forall i :: 0 <= i < |p'| ==> p'[i] == p[i];
      assert forall i :: 0 <= i < |v'| ==> v'[i] == v[i];
      DotBounds(p', v', lo, hi);
      WeightedStep(lo, hi, Sum(v'), Dot(p', v'), p[n - 1], v[n - 1]);
    }
  }

  lemma WeightedStep(lo: real, hi: real, s: real, d: real, x: real, w: real)
    requires lo * s <= d <= hi * s
    requires lo <= x <= hi && 0.0 <= w
    ensures lo * (s + w) <= d + x * w <= hi * (s + w)
  {
    MulMonotone(lo, x, w);
    MulMonotone(x, hi, w);
  }

  lemma MulMonotone(a: real, b: real, w: real)
    requires a <= b && 0.0 <= w
    ensures a * w <= b * w
  {
  }

  /** A total bounded by n * lo and n * hi, divided by n > 0, lies between lo and hi. */
  lemma DivideBounds(s: real, n: real, lo: real, hi: real)
    requires n > 0.0 && n * lo <= s <= n * hi
    ensures lo <= s / n <= hi
  {
  }

  /** A constant series weighted by v sums to that constant times the total weight. */
  lemma {:induction false} DotConstant(p: seq<real>, v: seq<real>, c: real)
    requires |p| == |v|
    requires forall i :: 0 <= i < |p| ==> p[i] == c
    ensures Dot(p, v) == c * Sum(v)
  {
    if p != [] {
      DotConstant(p[..|p| - 1], v[..|v| - 1], c);
    }
  }
}
