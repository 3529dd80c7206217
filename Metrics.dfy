/**
 * Performance summary of a backtest (quant/metrics.py): the running-peak maximum
 * drawdown of an equity curve, and the part of the summary that is exact
 * arithmetic: dropping missing PnL entries, refusing fewer than ten of them,
 * the total return and the day count.
 */
module Metrics {
  import opened Common
  import Backtest

  /** `equity.cummax()` at row t: the highest equity seen up to and including t. */
  function Peak(e: seq<real>, t: nat): (p: real)
    requires t < |e|
    ensures forall u :: 0 <= u <= t ==> e[u] <= p
    ensures exists u :: 0 <= u <= t && e[u] == p
  {
    if t == 0 then e[0]
    else
      var prev := Peak(e, t - 1);
      assert exists u :: 0 <= u <= t - 1 && e[u] == prev;
      if prev < e[t] then e[t] else prev
  }

  /** Every running peak is non-zero, so that `equity / peak` is a number. */
  predicate NonZeroPeaks(e: seq<real>) {
    forall t :: 0 <= t < |e| ==> Peak(e, t) != 0.0
  }

  /** `equity / peak - 1.0` at row t. */
  function Drawdown(e: seq<real>, t: nat): real
    requires t < |e| && Peak(e, t) != 0.0
  {
    e[t] / Peak(e, t) - 1.0
  }

  function Drawdowns(e: seq<real>): (dd: seq<real>)
    requires NonZeroPeaks(e)
    ensures |dd| == |e|
  {
    seq(|e|, t requires 0 <= t < |e| => Drawdown(e, t))
  }

  /** Smallest entry of a non-empty series (`min`). */
  function MinOf(s: seq<real>): (r: real)
    requires s != []
    ensures forall i :: 0 <= i < |s| ==> r <= s[i]
    ensures exists i :: 0 <= i < |s| && s[i] == r
    decreases |s|
  {
    if |s| == 1 then s[0]
    else
      var rest := MinOf(s[1..]);
      assert forall i :: 1 <= i < |s| ==> s[i] == s[1..][i - 1];
      assert exists i :: 1 <= i < |s| && s[i] == rest;
      if s[0] <= rest then s[0] else rest
  }

  /**
   * `_max_drawdown`: the smallest drawdown from the running peak. There is no number
   * when the curve is empty or any running peak is zero; NaN-skipping `min` and
   * infinite drawdowns are outside this model.
   */
  function MaxDrawdown(e: seq<real>): (r: Option<real>)
    ensures r.None? <==> e == [] || !NonZeroPeaks(e)
  {
    if e == [] || !NonZeroPeaks(e) then None else Some(MinOf(Drawdowns(e)))
  }

  /** The maximum drawdown is the drawdown of some row and no row draws down further. */
  lemma MaxDrawdownIsMinimum(e: seq<real>)
    requires e != [] && NonZeroPeaks(e)
    ensures MaxDrawdown(e).Some?
    ensures forall t :: 0 <= t < |e| ==> MaxDrawdown(e).value <= Drawdown(e, t)
    ensures exists t :: 0 <= t < |e| && MaxDrawdown(e).value == Drawdown(e, t)
  {
    var dd := Drawdowns(e);
    var d := MinOf(dd);
    assert forall t :: 0 <= t < |e| ==> dd[t] == Drawdown(e, t);
    var i :| 0 <= i < |dd| && dd[i] == d;
    assert MaxDrawdown(e).value == Drawdown(e, i);
  }

  predicate Positive(e: seq<real>) {
    forall t :: 0 <= t < |e| ==> e[t] > 0.0
  }

  predicate NonDecreasing(e: seq<real>) {
    forall t :: 0 < t < |e| ==> e[t - 1] <= e[t]
  }

  /** On a positive curve every running peak is positive and at least the current equity. */
  lemma PositivePeaks(e: seq<real>)
    requires Positive(e)
    ensures forall t :: 0 <= t < |e| ==> Peak(e, t) > 0.0 && e[t] <= Peak(e, t)
  {
    forall t | 0 <= t < |e| ensures Peak(e, t) > 0.0 && e[t] <= Peak(e, t) {
      var u :| 0 <= u <= t && e[u] == Peak(e, t);
    }
  }

  /** On a positive curve each drawdown lies in (-1, 0]. */
  lemma DrawdownBounds(e: seq<real>, t: nat)
    requires Positive(e) && t < |e|
    ensures Peak(e, t) > 0.0
    ensures -1.0 < Drawdown(e, t) <= 0.0
  {
    PositivePeaks(e);
    RatioBounds(e[t], Peak(e, t));
  }

  lemma RatioBounds(x: real, p: real)
    requires 0.0 < x <= p
    ensures 0.0 < x / p <= 1.0
  {
  }

  lemma RatioAtLeastOne(x: real, p: real)
    requires p > 0.0 && x / p >= 1.0
    ensures x >= p
  {
    assert x == x / p * p;
  }

  /** For a strictly positive equity curve the maximum drawdown lies in (-1, 0]. */
  lemma MaxDrawdownBounds(e: seq<real>)
    requires e != [] && Positive(e)
    ensures MaxDrawdown(e).Some?
    ensures -1.0 < MaxDrawdown(e).value <= 0.0
  {
    PositivePeaks(e);
    MaxDrawdownIsMinimum(e);
    var t :| 0 <= t < |e| && MaxDrawdown(e).value == Drawdown(e, t);
    DrawdownBounds(e, t);
    DrawdownBounds(e, 0);
  }

  /** A non-decreasing curve is at its peak on every row. */
  lemma {:induction false} NonDecreasingAtPeak(e: seq<real>, t: nat)
    requires NonDecreasing(e) && t < |e|
    ensures Peak(e, t) == e[t]
  {
    if t > 0 {
      NonDecreasingAtPeak(e, t - 1);
    }
  }

  /** On a positive curve the maximum drawdown is exactly zero iff the curve never falls. */
  lemma MaxDrawdownZeroIff(e: seq<real>)
    requires e != [] && Positive(e)
    ensures MaxDrawdown(e).Some?
    ensures MaxDrawdown(e).value == 0.0 <==> NonDecreasing(e)
  {
    PositivePeaks(e);
    MaxDrawdownIsMinimum(e);
    if NonDecreasing(e) {
      NonDecreasingNoDrawdown(e);
    }
    if MaxDrawdown(e).value == 0.0 {
      NoDrawdownNonDecreasing(e);
    }
  }

  lemma NonDecreasingNoDrawdown(e: seq<real>)
    requires Positive(e) && NonDecreasing(e)
    ensures NonZeroPeaks(e)
    ensures forall t :: 0 <= t < |e| ==> Drawdown(e, t) == 0.0
  {
    PositivePeaks(e);
    forall t | 0 <= t < |e| ensures Drawdown(e, t) == 0.0 {
      NonDecreasingAtPeak(e, t);
      DivSelf(e[t], 1.0);
    }
  }

  lemma NoDrawdownNonDecreasing(e: seq<real>)
    requires Positive(e)
    requires forall t :: 0 <= t < |e| ==> Peak(e, t) != 0.0 && Drawdown(e, t) >= 0.0
    ensures NonDecreasing(e)
  {
    PositivePeaks(e);
    forall t | 0 < t < |e| ensures e[t - 1] <= e[t] {
      RatioAtLeastOne(e[t], Peak(e, t));
      assert e[t - 1] <= Peak(e, t);
    }
  }

  /** `dropna()`: the present entries of a series, in order. */
  function DropNa(s: seq<Option<real>>): (r: seq<real>)
    ensures |r| <= |s|
    decreases |s|
  {
    if s == [] then []
    else
      var last := s[|s| - 1];
      DropNa(s[..|s| - 1]) + (if last.Some? then [last.value] else [])
  }

  /** The rows of a series that hold a value. */
  function Present(s: seq<Option<real>>): set<nat> {
    set i: nat | i < |s| && s[i].Some?
  }

  /** Dropping missing entries keeps exactly the present ones. */
  lemma {:induction false} DropNaCount(s: seq<Option<real>>)
    ensures |DropNa(s)| == |Present(s)|
    decreases |s|
  {
    if s != [] {
      var n := |s| - 1;
      var init := s[..n];
      DropNaCount(init);
      assert forall i :: 0 <= i < n ==> init[i] == s[i];
      if s[n].Some? {
        assert Present(s) == Present(init) + {n};
      } else {
        assert Present(s) == Present(init);
      }
    }
  }

  /** A value survives `dropna` iff it is present somewhere in the series. */
  lemma {:induction false} DropNaMembers(s: seq<Option<real>>)
    ensures forall x :: x in DropNa(s) <==> Some(x) in s
    decreases |s|
  {
    if s != [] {
      var n := |s| - 1;
      DropNaMembers(s[..n]);
      assert s == s[..n] + [s[n]];
    }
  }

  /** Nothing is dropped from a series with no missing entry, and something is dropped otherwise. */
  lemma {:induction false} DropNaAllPresent(s: seq<Option<real>>)
    ensures |DropNa(s)| == |s| <==> forall i :: 0 <= i < |s| ==> s[i].Some?
    decreases |s|
  {
    if s != [] {
      var n := |s| - 1;
      var init := s[..n];
      DropNaAllPresent(init);
      assert forall i :: 0 <= i < n ==> init[i] == s[i];
    }
  }

  datatype MetricsError = NotEnoughReturns | EmptyEquityCurve

  /** The exact part of the summary: maximum drawdown, total return and day count. */
  datatype Summary = Summary(maxDrawdown: Option<real>, totalReturn: real, numDays: nat)

  const MinReturns: nat := 10

  /**
   * `summarize_performance`: refuses fewer than ten present PnL entries; reading the last
   * equity value fails on an empty curve; otherwise the drawdown of the whole curve, the
   * last equity value minus one and the number of present PnL entries.
   */
  function Summarize(equity: seq<real>, pnl: seq<Option<real>>): (r: Result<Summary, MetricsError>)
    ensures r == Err(NotEnoughReturns) <==> |Present(pnl)| < MinReturns
    ensures r == Err(EmptyEquityCurve) <==> |Present(pnl)| >= MinReturns && equity == []
    ensures r.Ok? ==> && r.value.numDays == |Present(pnl)|
                      && r.value.totalReturn == equity[|equity| - 1] - 1.0
                      && r.value.maxDrawdown == MaxDrawdown(equity)
  {
    DropNaCount(pnl);
    var rs := DropNa(pnl);
    if |rs| < MinReturns then Err(NotEnoughReturns)
    else if equity == [] then Err(EmptyEquityCurve)
    else Ok(Summary(MaxDrawdown(equity), equity[|equity| - 1] - 1.0, |rs|))
  }

  /** The daily PnL of a backtest as a series with every entry present. */
  function Observed(s: seq<real>): (r: seq<Option<real>>)
    ensures |r| == |s|
  {
    seq(|s|, t requires 0 <= t < |s| => Some(s[t]))
  }

  /**
   * Summarising a backtest's own curve: when every day's PnL exceeds -100% the curve
   * stays positive, so the summary exists from ten days on, counts every day, and its
   * maximum drawdown lies in (-1, 0]; with no losing day the drawdown is exactly zero.
   */
  lemma SummarizeBacktest(pnl: seq<real>)
    requires |pnl| >= MinReturns
    requires forall t :: 0 <= t < |pnl| ==> pnl[t] > -1.0
    ensures var r := Summarize(Backtest.CumProd(pnl), Observed(pnl));
            && r.Ok?
            && r.value.numDays == |pnl|
            && r.value.maxDrawdown.Some?
            && -1.0 < r.value.maxDrawdown.value <= 0.0
            && ((forall t :: 0 <= t < |pnl| ==> pnl[t] >= 0.0) ==> r.value.maxDrawdown == Some(0.0))
  {
    var e := Backtest.CumProd(pnl);
    var s := Observed(pnl);
    DropNaAllPresent(s);
    DropNaCount(s);
    Backtest.EquityPositive(pnl);
    MaxDrawdownBounds(e);
    if forall t :: 0 <= t < |pnl| ==> pnl[t] >= 0.0 {
      Backtest.EquityNonDecreasing(pnl);
      MaxDrawdownZeroIff(e);
    }
  }
}
