/**
 * `run_backtest` (quant/backtest.py): a daily close-to-close simulation on one
 * shared axis of price dates and m symbol columns. Prices are forward-filled and
 * turned into simple returns, the weight panel is reindexed onto the price dates
 * and forward-filled per symbol, the leading inactive rows are trimmed, and the
 * daily PnL charges costs on the previous row's turnover and earns the previous
 * row's weights times today's returns. The equity curve is the running product.
 */
module Backtest {
  import opened Common

  /** A wide panel: one row of m cells per date, a missing cell is `None`. */
  datatype Panel = Panel(dates: seq<Date>, cells: seq<seq<Option<real>>>)

  datatype BacktestResult = BacktestResult(
    dates: seq<Date>,
    dailyPnl: seq<real>,
    equityCurve: seq<real>,
    turnover: seq<real>,
    weights: seq<seq<real>>,
    costs: seq<real>)

  datatype BacktestError = DuplicateWeightDates

  const BPS: real := 10000.0

  /** Every row has exactly m cells. */
  predicate Rect<T>(rows: seq<seq<T>>, m: nat) {
    forall t :: 0 <= t < |rows| ==> |rows[t]| == m
  }

  /** Every row has a cell in column i. */
  predicate HasColumn<T>(rows: seq<seq<T>>, i: nat) {
    forall t :: 0 <= t < |rows| ==> i < |rows[t]|
  }

  predicate WellFormed(p: Panel, m: nat) {
    |p.cells| == |p.dates| && Rect(p.cells, m)
  }

  /** Every recorded price is positive. */
  predicate PositivePrices(cells: seq<seq<Option<real>>>) {
    forall t, i :: 0 <= t < |cells| && 0 <= i < |cells[t]| && cells[t][i].Some? ==> cells[t][i].value > 0.0
  }

  predicate Distinct(ds: seq<Date>) {
    forall j, k :: 0 <= j < k < |ds| ==> ds[j] != ds[k]
  }

  // ---------------------------------------------------------------------------
  // Forward fill, returns and alignment
  // ---------------------------------------------------------------------------

  /** `ffill` of column i at row t: the latest recorded cell at or before t. */
  function Filled(cells: seq<seq<Option<real>>>, i: nat, t: nat): (r: Option<real>)
    requires t < |cells| && HasColumn(cells, i)
    ensures r.Some? ==> exists u :: 0 <= u <= t && cells[u][i] == r
    decreases t
  {
    if cells[t][i].Some? then cells[t][i]
    else if t == 0 then None
    else Filled(cells, i, t - 1)
  }

  /** `pct_change().fillna(0.0)` on the forward-filled prices: 0 on the first row and
      wherever a price is still missing. */
  function Return(cells: seq<seq<Option<real>>>, i: nat, t: nat): real
    requires t < |cells| && HasColumn(cells, i) && PositivePrices(cells)
  {
    if t == 0 then 0.0
    else
      match (Filled(cells, i, t - 1), Filled(cells, i, t))
      case (Some(p0), Some(p1)) => p1 / p0 - 1.0
      case _ => 0.0
  }

  function Returns(cells: seq<seq<Option<real>>>, m: nat): (R: seq<seq<real>>)
    requires Rect(cells, m) && PositivePrices(cells)
    ensures |R| == |cells| && Rect(R, m)
  {
    seq(|cells|, t requires 0 <= t < |cells| =>
      seq(m, i requires 0 <= i < m => Return(cells, i, t)))
  }

  /** The position of date d in ds, if it is there. */
  function FindDate(ds: seq<Date>, d: Date): (r: Option<nat>)
    ensures r.Some? ==> r.value < |ds| && ds[r.value] == d
    ensures r.None? <==> d !in ds
  {
    if ds == [] then None
    else if ds[0] == d then Some(0)
    else
      match FindDate(ds[1..], d)
      case Some(k) => Some(k + 1)
      case None => None
  }

  function NoneRow(m: nat): (r: seq<Option<real>>)
    ensures |r| == m && forall i :: 0 <= i < m ==> r[i].None?
  {
    seq(m, i => None)
  }

  /** `weights.reindex(px.index)`: the weight row dated on each price date, or a row of
      missing cells when there is none. Weight dates off the price calendar vanish. */
  function Reindexed(priceDates: seq<Date>, weights: Panel, m: nat): (rows: seq<seq<Option<real>>>)
    requires WellFormed(weights, m)
    ensures |rows| == |priceDates| && Rect(rows, m)
  {
    seq(|priceDates|, t requires 0 <= t < |priceDates| =>
      match FindDate(weights.dates, priceDates[t])
      case Some(k) => weights.cells[k]
      case None => NoneRow(m))
  }

  /** `.ffill().fillna(0.0)` on the reindexed weights. */
  function Aligned(priceDates: seq<Date>, weights: Panel, m: nat): (W: seq<seq<real>>)
    requires WellFormed(weights, m)
    ensures |W| == |priceDates| && Rect(W, m)
  {
    FillZero(Reindexed(priceDates, weights, m), m)
  }

  /** `.ffill().fillna(0.0)` on rows of m cells. */
  function FillZero(rows: seq<seq<Option<real>>>, m: nat): (W: seq<seq<real>>)
    requires Rect(rows, m)
    ensures |W| == |rows| && Rect(W, m)
  {
    seq(|rows|, t requires 0 <= t < |rows| =>
      seq(m, i requires 0 <= i < m => Filled(rows, i, t).GetOr(0.0)))
  }

  // ---------------------------------------------------------------------------
  // The warm-up trim
  // ---------------------------------------------------------------------------

  /** `W.abs().sum(axis=1) > 0`. */
  predicate Active(row: seq<real>) {
    AbsSum(row) > 0.0
  }

  /** `active.idxmax()` when `active.any()`. */
  function FirstActive(W: seq<seq<real>>): (r: Option<nat>)
    ensures r.Some? ==> r.value < |W| && Active(W[r.value])
                        && forall u :: 0 <= u < r.value ==> !Active(W[u])
    ensures r.None? <==> forall u :: 0 <= u < |W| ==> !Active(W[u])
  {
    if W == [] then None
    else if Active(W[0]) then Some(0)
    else
      match FirstActive(W[1..])
      case Some(k) =>
        assert forall u :: 1 <= u < k + 1 ==> W[u] == W[1..][u - 1];
        Some(k + 1)
      case None =>
        assert forall u :: 1 <= u < |W| ==> W[u] == W[1..][u - 1];
        None
  }

  /** The first row kept by the trim: the first active row, or 0 when none is active. */
  function Start(W: seq<seq<real>>): (s: nat)
    ensures s <= |W|
  {
    match FirstActive(W)
    case Some(k) => k
    case None => 0
  }

  // ---------------------------------------------------------------------------
  // The series on the trimmed axis
  // ---------------------------------------------------------------------------

  function Diff(a: seq<real>, b: seq<real>): (r: seq<real>)
    requires |a| == |b|
    ensures |r| == |a|
  {
    seq(|a|, i requires 0 <= i < |a| => a[i] - b[i])
  }

  /** `W.diff().abs().sum(axis=1).fillna(0.0)`: 0 on the first row. */
  function Turnover(W: seq<seq<real>>, m: nat): (to: seq<real>)
    requires Rect(W, m)
    ensures |to| == |W|
    ensures forall t :: 0 <= t < |to| ==> to[t] >= 0.0
    ensures |W| > 0 ==> to[0] == 0.0
  {
    seq(|W|, t requires 0 <= t < |W| => if t == 0 then 0.0 else AbsSum(Diff(W[t], W[t - 1])))
  }

  /** `turnover.shift(1).fillna(0.0) * cost_rate`. */
  function Costs(turnover: seq<real>, rate: real): (c: seq<real>)
    ensures |c| == |turnover|
  {
    seq(|turnover|, t requires 0 <= t < |turnover| => if t == 0 then 0.0 else Charge(turnover[t - 1], rate))
  }

  /** The cost of trading `turnover` at `rate` per unit. */
  function Charge(turnover: real, rate: real): real {
    turnover * rate
  }

  /** `(commission_bps + slippage_bps) / 10000.0`. */
  function CostRate(commissionBps: real, slippageBps: real): real {
    (commissionBps + slippageBps) / BPS
  }

  function Dot(w: seq<real>, r: seq<real>): real
    requires |w| == |r|
  {
    Sum(seq(|w|, i requires 0 <= i < |w| => Charge(w[i], r[i])))
  }

  /** `(W.shift(1).fillna(0.0) * rets).sum(axis=1)`: yesterday's weights times today's
      returns, 0 on the first row. */
  function GrossPnl(W: seq<seq<real>>, R: seq<seq<real>>, m: nat): (g: seq<real>)
    requires Rect(W, m) && Rect(R, m) && |W| == |R|
    ensures |g| == |W|
  {
    seq(|W|, t requires 0 <= t < |W| => if t == 0 then 0.0 else Dot(W[t - 1], R[t]))
  }

  function DailyPnl(gross: seq<real>, costs: seq<real>): (p: seq<real>)
    requires |gross| == |costs|
    ensures |p| == |gross|
  {
    seq(|gross|, t requires 0 <= t < |gross| => gross[t] - costs[t])
  }

  /** The running product of `1 + s[j]`, each point scaled by `acc`. */
  function Compound(acc: real, s: seq<real>): (e: seq<real>)
    ensures |e| == |s|
    decreases |s|
  {
    if s == [] then []
    else
      var next := Grow(acc, s[0]);
      [next] + Compound(next, s[1..])
  }

  /** One day of compounding: `level * (1 + pnl)`. */
  function Grow(level: real, pnl: real): real {
    level * (1.0 + pnl)
  }

  /** `(1.0 + daily_pnl).cumprod()`. */
  function CumProd(s: seq<real>): (e: seq<real>)
    ensures |e| == |s|
  {
    Compound(1.0, s)
  }

  /** The series of the simulation for aligned weights W and returns R on one axis. */
  function Simulate(dates: seq<Date>, W: seq<seq<real>>, R: seq<seq<real>>, m: nat, rate: real): (r: BacktestResult)
    requires Rect(W, m) && Rect(R, m) && |W| == |R| == |dates|
    ensures |r.dates| == |r.dailyPnl| == |r.equityCurve| == |r.turnover| == |r.weights| == |r.costs| == |dates|
  {
    var to := Turnover(W, m);
    var costs := Costs(to, rate);
    var pnl := DailyPnl(GrossPnl(W, R, m), costs);
    BacktestResult(dates, pnl, CumProd(pnl), to, W, costs)
  }

  /** `run_backtest`. `reindex` refuses a weight panel with a repeated date. */
  function RunBacktest(prices: Panel, weights: Panel, m: nat, commissionBps: real, slippageBps: real)
    : (r: Result<BacktestResult, BacktestError>)
    requires WellFormed(prices, m) && StrictlyIncreasing(prices.dates) && PositivePrices(prices.cells)
    requires WellFormed(weights, m)
    ensures r.Err? <==> !Distinct(weights.dates)
  {
    if !Distinct(weights.dates) then Err(DuplicateWeightDates)
    else
      var R := Returns(prices.cells, m);
      var W := Aligned(prices.dates, weights, m);
      var s := Start(W);
      Ok(Simulate(prices.dates[s..], W[s..], R[s..], m, CostRate(commissionBps, slippageBps)))
  }

  // ---------------------------------------------------------------------------
  // Forward fill
  // ---------------------------------------------------------------------------

  /** The filled value is the latest recorded cell: if row u holds a value and no row
      after it up to t does, the fill at t is that value. */
  lemma {:induction false} FilledLatest(cells: seq<seq<Option<real>>>, i: nat, u: nat, t: nat)
    requires u <= t < |cells| && HasColumn(cells, i)
    requires cells[u][i].Some?
    requires forall v :: u < v <= t ==> cells[v][i].None?
    ensures Filled(cells, i, t) == cells[u][i]
    decreases t
  {
    if t > u {
      FilledLatest(cells, i, u, t - 1);
    }
  }

  /** The fill at t is missing exactly when nothing is recorded at or before t. */
  lemma {:induction false} FilledNoneIff(cells: seq<seq<Option<real>>>, i: nat, t: nat)
    requires t < |cells| && HasColumn(cells, i)
    ensures Filled(cells, i, t).None? <==> forall u :: 0 <= u <= t ==> cells[u][i].None?
    decreases t
  {
    if t > 0 && cells[t][i].None? {
      FilledNoneIff(cells, i, t - 1);
    }
  }

  /** Compounding yesterday's filled price by today's return gives today's price. */
  lemma ReturnRoundTrip(cells: seq<seq<Option<real>>>, i: nat, t: nat)
    requires 0 < t < |cells| && HasColumn(cells, i) && PositivePrices(cells)
    requires Filled(cells, i, t - 1).Some? && Filled(cells, i, t).Some?
    ensures Filled(cells, i, t - 1).value * (1.0 + Return(cells, i, t)) == Filled(cells, i, t).value
  {
    var p0, p1 := Filled(cells, i, t - 1).value, Filled(cells, i, t).value;
    assert p0 > 0.0;
    assert p0 * (1.0 + (p1 / p0 - 1.0)) == p0 * (p1 / p0);
  }

  /** On a row with no recorded price the return is 0. */
  lemma ReturnOnGap(cells: seq<seq<Option<real>>>, i: nat, t: nat)
    requires t < |cells| && HasColumn(cells, i) && PositivePrices(cells)
    requires cells[t][i].None?
    ensures Return(cells, i, t) == 0.0
  {
  }

  // ---------------------------------------------------------------------------
  // Alignment of the weights
  // ---------------------------------------------------------------------------

  /** With distinct weight dates, a price date that carries a weight row gets that row. */
  lemma ReindexedRow(priceDates: seq<Date>, weights: Panel, m: nat, t: nat, k: nat)
    requires WellFormed(weights, m) && Distinct(weights.dates)
    requires t < |priceDates| && k < |weights.dates| && weights.dates[k] == priceDates[t]
    ensures Reindexed(priceDates, weights, m)[t] == weights.cells[k]
  {
    var f := FindDate(weights.dates, priceDates[t]);
    assert f.Some?;
    assert f.value == k;
  }

  /** A price date with no weight row gets a row of missing cells. */
  lemma ReindexedGap(priceDates: seq<Date>, weights: Panel, m: nat, t: nat)
    requires WellFormed(weights, m)
    requires t < |priceDates| && priceDates[t] !in weights.dates
    ensures Reindexed(priceDates, weights, m)[t] == NoneRow(m)
  {
  }

  /** The aligned weight of symbol i on price row t is its most recent weight on a
      price date at or before t. */
  lemma AlignedLatest(priceDates: seq<Date>, weights: Panel, m: nat, i: nat, u: nat, t: nat, k: nat)
    requires WellFormed(weights, m) && Distinct(weights.dates) && i < m
    requires u <= t < |priceDates| && k < |weights.dates| && weights.dates[k] == priceDates[u]
    requires weights.cells[k][i].Some?
    requires forall v :: u < v <= t ==> Reindexed(priceDates, weights, m)[v][i].None?
    ensures Aligned(priceDates, weights, m)[t][i] == weights.cells[k][i].value
  {
    var rows := Reindexed(priceDates, weights, m);
    ReindexedRow(priceDates, weights, m, u, k);
    FilledLatest(rows, i, u, t);
  }

  /** Before a symbol's first weight on the price calendar its aligned weight is 0. */
  lemma AlignedBeforeFirst(priceDates: seq<Date>, weights: Panel, m: nat, i: nat, t: nat)
    requires WellFormed(weights, m) && i < m && t < |priceDates|
    requires forall v :: 0 <= v <= t ==> Reindexed(priceDates, weights, m)[v][i].None?
    ensures Aligned(priceDates, weights, m)[t][i] == 0.0
  {
    FilledNoneIff(Reindexed(priceDates, weights, m), i, t);
  }

  /** A symbol missing from the weight row of a price date, or a price date without a
      weight row, keeps the previous row's aligned weight. */
  lemma {:induction false} AlignedInherits(priceDates: seq<Date>, weights: Panel, m: nat, i: nat, t: nat)
    requires WellFormed(weights, m) && i < m && 0 < t < |priceDates|
    requires Reindexed(priceDates, weights, m)[t][i].None?
    ensures Aligned(priceDates, weights, m)[t][i] == Aligned(priceDates, weights, m)[t - 1][i]
  {
    FillZeroInherits(Reindexed(priceDates, weights, m), m, i, t);
  }

  lemma FillZeroInherits(rows: seq<seq<Option<real>>>, m: nat, i: nat, t: nat)
    requires Rect(rows, m) && i < m && 0 < t < |rows| && rows[t][i].None?
    ensures FillZero(rows, m)[t][i] == FillZero(rows, m)[t - 1][i]
  {
    var W := FillZero(rows, m);
    assert W[t][i] == Filled(rows, i, t).GetOr(0.0);
    assert W[t - 1][i] == Filled(rows, i, t - 1).GetOr(0.0);
  }

  // ---------------------------------------------------------------------------
  // The simulation
  // ---------------------------------------------------------------------------

  /** Turnover on a row after the first is 0 exactly when the weights did not change. */
  lemma TurnoverZeroIff(W: seq<seq<real>>, m: nat, t: nat)
    requires Rect(W, m) && 0 < t < |W|
    ensures Turnover(W, m)[t] == 0.0 <==> W[t] == W[t - 1]
  {
    var d := Diff(W[t], W[t - 1]);
    AbsSumZeroIff(d);
    if forall i :: 0 <= i < |d| ==> d[i] == 0.0 {
      assert forall i :: 0 <= i < m ==> W[t][i] == W[t - 1][i] + d[i];
    }
  }

  /** With non-negative bps every cost is non-negative, and the first row costs nothing. */
  lemma CostsNonNegative(turnover: seq<real>, commissionBps: real, slippageBps: real)
    requires commissionBps >= 0.0 && slippageBps >= 0.0
    requires forall t :: 0 <= t < |turnover| ==> turnover[t] >= 0.0
    ensures forall t :: 0 <= t < |turnover| ==> Costs(turnover, CostRate(commissionBps, slippageBps))[t] >= 0.0
  {
    var rate := CostRate(commissionBps, slippageBps);
    assert rate >= 0.0;
    var c := Costs(turnover, rate);
    forall t | 0 <= t < |turnover| ensures c[t] >= 0.0 {
      if t > 0 {
        MulNonNegative(turnover[t - 1], rate);
      }
    }
  }

  lemma MulNonNegative(x: real, y: real)
    requires x >= 0.0 && y >= 0.0
    ensures x * y >= 0.0
  {
  }

  /** No look-ahead: the PnL of row t is fixed by the weights of the rows before t and
      the returns of row t; the weights of row t and later do not enter it. */
  lemma DailyPnlCausal(W1: seq<seq<real>>, W2: seq<seq<real>>, R1: seq<seq<real>>, R2: seq<seq<real>>,
                       m: nat, rate: real, t: nat)
    requires Rect(W1, m) && Rect(R1, m) && |W1| == |R1|
    requires Rect(W2, m) && Rect(R2, m) && |W2| == |R2|
    requires t < |W1| && t < |W2| && W1[..t] == W2[..t] && R1[t] == R2[t]
    ensures DailyPnl(GrossPnl(W1, R1, m), Costs(Turnover(W1, m), rate))[t]
         == DailyPnl(GrossPnl(W2, R2, m), Costs(Turnover(W2, m), rate))[t]
  {
    var g1, g2 := GrossPnl(W1, R1, m), GrossPnl(W2, R2, m);
    var to1, to2 := Turnover(W1, m), Turnover(W2, m);
    if t > 0 {
      assert W1[t - 1] == W1[..t][t - 1] == W2[..t][t - 1] == W2[t - 1];
      GrossPnlCausal(W1, W2, R1, R2, m, t);
      if t > 1 {
        assert W1[t - 2] == W1[..t][t - 2] == W2[..t][t - 2] == W2[t - 2];
      }
      TurnoverCausal(W1, W2, m, t - 1);
    }
    CostsCausal(to1, to2, rate, t);
    DailyPnlAt(g1, g2, Costs(to1, rate), Costs(to2, rate), t);
  }

  lemma CostsCausal(to1: seq<real>, to2: seq<real>, rate: real, t: nat)
    requires t < |to1| && t < |to2| && (t > 0 ==> to1[t - 1] == to2[t - 1])
    ensures Costs(to1, rate)[t] == Costs(to2, rate)[t]
  {
  }

  lemma DailyPnlAt(g1: seq<real>, g2: seq<real>, c1: seq<real>, c2: seq<real>, t: nat)
    requires |g1| == |c1| && |g2| == |c2| && t < |g1| && t < |g2|
    ensures DailyPnl(g1, c1)[t] == g1[t] - c1[t]
    ensures g1[t] == g2[t] && c1[t] == c2[t] ==> DailyPnl(g1, c1)[t] == DailyPnl(g2, c2)[t]
  {
  }

  lemma GrossPnlCausal(W1: seq<seq<real>>, W2: seq<seq<real>>, R1: seq<seq<real>>, R2: seq<seq<real>>,
                       m: nat, t: nat)
    requires Rect(W1, m) && Rect(R1, m) && |W1| == |R1|
    requires Rect(W2, m) && Rect(R2, m) && |W2| == |R2|
    requires 0 < t < |W1| && t < |W2| && W1[t - 1] == W2[t - 1] && R1[t] == R2[t]
    ensures GrossPnl(W1, R1, m)[t] == GrossPnl(W2, R2, m)[t]
  {
  }

  lemma TurnoverCausal(W1: seq<seq<real>>, W2: seq<seq<real>>, m: nat, t: nat)
    requires Rect(W1, m) && Rect(W2, m)
    requires t < |W1| && t < |W2| && W1[t] == W2[t] && (t > 0 ==> W1[t - 1] == W2[t - 1])
    ensures Turnover(W1, m)[t] == Turnover(W2, m)[t]
  {
  }

  /** The PnL of row t debits the turnover of row t - 1, not that of row t. */
  lemma CostsLagTurnover(W: seq<seq<real>>, R: seq<seq<real>>, m: nat, rate: real, t: nat)
    requires Rect(W, m) && Rect(R, m) && |W| == |R| && 0 < t < |W|
    ensures DailyPnl(GrossPnl(W, R, m), Costs(Turnover(W, m), rate))[t]
         == Dot(W[t - 1], R[t]) - Charge(Turnover(W, m)[t - 1], rate)
  {
    var to := Turnover(W, m);
    var c := Costs(to, rate);
    var g := GrossPnl(W, R, m);
    CostsAt(to, rate, t);
    GrossPnlAt(W, R, m, t);
    DailyPnlAt(g, g, c, c, t);
  }

  lemma GrossPnlAt(W: seq<seq<real>>, R: seq<seq<real>>, m: nat, t: nat)
    requires Rect(W, m) && Rect(R, m) && |W| == |R| && 0 < t < |W|
    ensures GrossPnl(W, R, m)[t] == Dot(W[t - 1], R[t])
  {
  }

  lemma CostsAt(turnover: seq<real>, rate: real, t: nat)
    requires 0 < t < |turnover|
    ensures Costs(turnover, rate)[t] == Charge(turnover[t - 1], rate)
  {
  }

  /** With zero bps the PnL is exactly yesterday's weights times today's returns. */
  lemma ZeroCostPnl(W: seq<seq<real>>, R: seq<seq<real>>, m: nat)
    requires Rect(W, m) && Rect(R, m) && |W| == |R|
    ensures DailyPnl(GrossPnl(W, R, m), Costs(Turnover(W, m), CostRate(0.0, 0.0))) == GrossPnl(W, R, m)
  {
    var g := GrossPnl(W, R, m);
    var c := Costs(Turnover(W, m), 0.0);
    assert CostRate(0.0, 0.0) == 0.0;
    forall t | 0 <= t < |c| ensures c[t] == 0.0 {
      if t > 0 {
        assert Charge(Turnover(W, m)[t - 1], 0.0) == 0.0;
      }
    }
    assert forall t :: 0 <= t < |g| ==> DailyPnl(g, c)[t] == g[t];
  }

  // ---------------------------------------------------------------------------
  // The equity curve
  // ---------------------------------------------------------------------------

  /** `prod(1 + s[j])`, written head first. */
  function Growth(s: seq<real>): real
    decreases |s|
  {
    if s == [] then 1.0 else (1.0 + s[0]) * Growth(s[1..])
  }

  lemma MulAssoc(a: real, b: real, c: real)
    ensures a * (b * c) == (a * b) * c
  {
  }

  lemma CompoundCons(acc: real, s: seq<real>)
    requires s != []
    ensures Compound(acc, s) == [Grow(acc, s[0])] + Compound(Grow(acc, s[0]), s[1..])
  {
  }

  /** Each point compounds the one before it, the first one compounds `acc`. */
  lemma {:induction false} CompoundStep(acc: real, s: seq<real>, t: nat)
    requires t < |s|
    ensures Compound(acc, s)[t] == Grow(if t == 0 then acc else Compound(acc, s)[t - 1], s[t])
    decreases t
  {
    if t > 0 {
      var next := Grow(acc, s[0]);
      assert Compound(acc, s)[t] == Compound(next, s[1..])[t - 1];
      CompoundStep(next, s[1..], t - 1);
      if t > 1 {
        assert Compound(acc, s)[t - 1] == Compound(next, s[1..])[t - 2];
      }
    }
  }

  /** A prefix of the running product is the running product of the prefix. */
  lemma {:induction false} CompoundPrefix(acc: real, s: seq<real>, k: nat)
    requires k <= |s|
    ensures Compound(acc, s)[..k] == Compound(acc, s[..k])
    decreases k
  {
    if k > 0 {
      var next := Grow(acc, s[0]);
      var p := s[..k];
      assert p[0] == s[0];
      assert Grow(acc, p[0]) == next;
      var q := s[1..][..k - 1];
      assert p[1..] == q;
      assert Compound(next, p[1..]) == Compound(next, q);
      CompoundPrefix(next, s[1..], k - 1);
      CompoundCons(acc, s);
      CompoundCons(acc, p);
      calc {
        Compound(acc, p);
        [Grow(acc, p[0])] + Compound(Grow(acc, p[0]), p[1..]);
        [next] + Compound(next, q);
        [next] + Compound(next, s[1..])[..k - 1];
        ([next] + Compound(next, s[1..]))[..k];
      }
    } else {
      assert s[..0] == [];
    }
  }

  /** Each point is `acc` times the product of `1 + s[j]` up to it. */
  lemma {:induction false} CompoundIsGrowth(acc: real, s: seq<real>, t: nat)
    requires t < |s|
    ensures Compound(acc, s)[t] == acc * Growth(s[..t + 1])
    decreases t
  {
    var next := Grow(acc, s[0]);
    if t == 0 {
      assert s[..1][1..] == [];
    } else {
      CompoundIsGrowth(next, s[1..], t - 1);
      assert s[..t + 1][1..] == s[1..][..t];
      MulAssoc(acc, 1.0 + s[0], Growth(s[1..][..t]));
    }
  }

  /** `equity(0) = 1 + pnl(0)` and `equity(t) = equity(t - 1) * (1 + pnl(t))`. */
  lemma CumProdStep(s: seq<real>, t: nat)
    requires t < |s|
    ensures CumProd(s)[t] == Grow(if t == 0 then 1.0 else CumProd(s)[t - 1], s[t])
  {
    CompoundStep(1.0, s, t);
  }

  /** The curve up to day k depends only on the PnL up to day k. */
  lemma CumProdPrefix(s: seq<real>, k: nat)
    requires k <= |s|
    ensures CumProd(s)[..k] == CumProd(s[..k])
  {
    CompoundPrefix(1.0, s, k);
  }

  /** Each point of the equity curve is the product of `1 + pnl` up to that day. */
  lemma CumProdIsGrowth(s: seq<real>, t: nat)
    requires t < |s|
    ensures CumProd(s)[t] == Growth(s[..t + 1])
  {
    CompoundIsGrowth(1.0, s, t);
  }

  lemma MulPositive(x: real, y: real)
    requires x > 0.0 && y > 0.0
    ensures x * y > 0.0
  {
  }

  lemma MulAtLeastOne(x: real, y: real)
    requires x >= 1.0 && y >= 1.0
    ensures x * y >= x
  {
    assert x * y - x == x * (y - 1.0);
    MulNonNegative(x, y - 1.0);
  }

  /** Losing less than everything every day keeps the curve strictly positive. */
  lemma EquityPositive(s: seq<real>)
    requires forall j :: 0 <= j < |s| ==> s[j] > -1.0
    ensures forall t :: 0 <= t < |s| ==> CumProd(s)[t] > 0.0
  {
    forall t | 0 <= t < |s| ensures CumProd(s)[t] > 0.0 {
      EquityPositiveAt(s, t);
    }
  }

  lemma {:induction false} EquityPositiveAt(s: seq<real>, t: nat)
    requires t < |s| && forall j :: 0 <= j < |s| ==> s[j] > -1.0
    ensures CumProd(s)[t] > 0.0
    decreases t
  {
    var grow := 1.0 + s[t];
    assert grow > 0.0;
    CumProdStep(s, t);
    if t == 0 {
      assert CumProd(s)[t] == 1.0 * grow;
    } else {
      EquityPositiveAt(s, t - 1);
      var prev := CumProd(s)[t - 1];
      MulPositive(prev, grow);
      assert CumProd(s)[t] == prev * grow;
    }
  }

  /** Never losing keeps the curve at 1 or more and non-decreasing. */
  lemma EquityNonDecreasing(s: seq<real>)
    requires forall j :: 0 <= j < |s| ==> s[j] >= 0.0
    ensures forall t :: 0 <= t < |s| ==> CumProd(s)[t] >= 1.0
    ensures forall t :: 0 < t < |s| ==> CumProd(s)[t - 1] <= CumProd(s)[t]
  {
    forall t | 0 <= t < |s| ensures CumProd(s)[t] >= 1.0 && (t > 0 ==> CumProd(s)[t - 1] <= CumProd(s)[t]) {
      EquityAtLeastOneAt(s, t);
      if t > 0 {
        EquityAtLeastOneAt(s, t - 1);
        CumProdStep(s, t);
        MulAtLeastOne(CumProd(s)[t - 1], 1.0 + s[t]);
      }
    }
  }

  lemma {:induction false} EquityAtLeastOneAt(s: seq<real>, t: nat)
    requires t < |s| && forall j :: 0 <= j < |s| ==> s[j] >= 0.0
    ensures CumProd(s)[t] >= 1.0
    decreases t
  {
    CumProdStep(s, t);
    if t > 0 {
      EquityAtLeastOneAt(s, t - 1);
      MulAtLeastOne(CumProd(s)[t - 1], 1.0 + s[t]);
    }
  }

  // ---------------------------------------------------------------------------
  // Properties of run_backtest
  // ---------------------------------------------------------------------------

  /** All returned series share the trimmed axis, the price dates from the first kept
      row `Start(W)` on, and the returned weights are the aligned weights from that row on. */
  lemma BacktestShape(prices: Panel, weights: Panel, m: nat, commissionBps: real, slippageBps: real)
    requires WellFormed(prices, m) && StrictlyIncreasing(prices.dates) && PositivePrices(prices.cells)
    requires WellFormed(weights, m) && Distinct(weights.dates)
    ensures var r := RunBacktest(prices, weights, m, commissionBps, slippageBps).value;
            var W := Aligned(prices.dates, weights, m);
            var s := Start(W);
            && |r.dates| == |prices.dates| - s
            && |r.dailyPnl| == |r.equityCurve| == |r.turnover| == |r.weights| == |r.costs| == |r.dates|
            && r.dates == prices.dates[s..]
            && r.weights == W[s..]
  {
    var W := Aligned(prices.dates, weights, m);
    var R := Returns(prices.cells, m);
    var st := Start(W);
    SimulateKeeps(prices.dates[st..], W[st..], R[st..], m, CostRate(commissionBps, slippageBps));
  }

  lemma SimulateKeeps(dates: seq<Date>, W: seq<seq<real>>, R: seq<seq<real>>, m: nat, rate: real)
    requires Rect(W, m) && Rect(R, m) && |W| == |R| == |dates|
    ensures Simulate(dates, W, R, m, rate).dates == dates && Simulate(dates, W, R, m, rate).weights == W
  {
  }

  /** The trim: no row before the first kept row `Start(W)` holds a position; the kept
      rows open on a position when any row has one, and nothing is dropped otherwise. */
  lemma TrimStartsAtFirstActive(prices: Panel, weights: Panel, m: nat, commissionBps: real, slippageBps: real)
    requires WellFormed(prices, m) && StrictlyIncreasing(prices.dates) && PositivePrices(prices.cells)
    requires WellFormed(weights, m) && Distinct(weights.dates)
    ensures var r := RunBacktest(prices, weights, m, commissionBps, slippageBps).value;
            var W := Aligned(prices.dates, weights, m);
            && (forall u :: 0 <= u < Start(W) ==> !Active(W[u]))
            && ((exists u :: 0 <= u < |W| && Active(W[u])) ==> |r.weights| > 0 && Active(r.weights[0]))
            && ((forall u :: 0 <= u < |W| ==> !Active(W[u])) ==> r.dates == prices.dates)
  {
    var W := Aligned(prices.dates, weights, m);
    var R := Returns(prices.cells, m);
    var st := Start(W);
    BacktestShape(prices, weights, m, commissionBps, slippageBps);
    if FirstActive(W).Some? {
      assert W[st..][0] == W[st];
    } else {
      assert prices.dates[0..] == prices.dates;
    }
  }

  /** The opening trade is never charged: turnover and cost are 0 on the first kept row
      and the cost of the second kept row is 0 as well, so the first row's PnL is 0. */
  lemma OpeningTradeUncharged(prices: Panel, weights: Panel, m: nat, commissionBps: real, slippageBps: real)
    requires WellFormed(prices, m) && StrictlyIncreasing(prices.dates) && PositivePrices(prices.cells)
    requires WellFormed(weights, m) && Distinct(weights.dates)
    ensures var r := RunBacktest(prices, weights, m, commissionBps, slippageBps).value;
            && (|r.dates| > 0 ==> r.turnover[0] == 0.0 && r.costs[0] == 0.0 && r.dailyPnl[0] == 0.0
                                  && r.equityCurve[0] == 1.0)
            && (|r.dates| > 1 ==> r.costs[1] == 0.0)
  {
    var W := Aligned(prices.dates, weights, m);
    var R := Returns(prices.cells, m);
    var st := Start(W);
    SimulateOpening(prices.dates[st..], W[st..], R[st..], m, CostRate(commissionBps, slippageBps));
  }

  lemma SimulateOpening(dates: seq<Date>, W: seq<seq<real>>, R: seq<seq<real>>, m: nat, rate: real)
    requires Rect(W, m) && Rect(R, m) && |W| == |R| == |dates|
    ensures var r := Simulate(dates, W, R, m, rate);
            && (|dates| > 0 ==> r.turnover[0] == 0.0 && r.costs[0] == 0.0 && r.dailyPnl[0] == 0.0
                                && r.equityCurve[0] == 1.0)
            && (|dates| > 1 ==> r.costs[1] == 0.0)
  {
    var r := Simulate(dates, W, R, m, rate);
    if |dates| > 0 {
      CumProdStep(r.dailyPnl, 0);
    }
  }

  /** Each kept row's PnL: yesterday's aligned weights times today's returns, minus
      yesterday's turnover at the cost rate. */
  lemma BacktestPnl(prices: Panel, weights: Panel, m: nat, commissionBps: real, slippageBps: real, t: nat)
    requires WellFormed(prices, m) && StrictlyIncreasing(prices.dates) && PositivePrices(prices.cells)
    requires WellFormed(weights, m) && Distinct(weights.dates)
    requires 0 < t < |RunBacktest(prices, weights, m, commissionBps, slippageBps).value.dates|
    ensures var r := RunBacktest(prices, weights, m, commissionBps, slippageBps).value;
            var R := Returns(prices.cells, m);
            var s := Start(Aligned(prices.dates, weights, m));
            && r.costs[t] == Charge(r.turnover[t - 1], CostRate(commissionBps, slippageBps))
            && r.dailyPnl[t] == Dot(r.weights[t - 1], R[s + t]) - r.costs[t]
  {
    var W := Aligned(prices.dates, weights, m);
    var R := Returns(prices.cells, m);
    var st := Start(W);
    SimulatePnl(prices.dates[st..], W[st..], R[st..], m, CostRate(commissionBps, slippageBps), t);
    SuffixAt(R, st, t);
  }

  lemma SuffixAt<T>(s: seq<T>, a: nat, t: nat)
    requires a + t < |s|
    ensures s[a..][t] == s[a + t]
  {
  }

  lemma SimulatePnl(dates: seq<Date>, W: seq<seq<real>>, R: seq<seq<real>>, m: nat, rate: real, t: nat)
    requires Rect(W, m) && Rect(R, m) && |W| == |R| == |dates| && 0 < t < |dates|
    ensures var r := Simulate(dates, W, R, m, rate);
            && r.costs[t] == Charge(r.turnover[t - 1], rate)
            && r.dailyPnl[t] == Dot(W[t - 1], R[t]) - r.costs[t]
  {
    var to := Turnover(W, m);
    var c := Costs(to, rate);
    var g := GrossPnl(W, R, m);
    CostsAt(to, rate, t);
    GrossPnlAt(W, R, m, t);
    DailyPnlAt(g, g, c, c, t);
  }

  /** The equity curve compounds each kept row's PnL: it opens at `1 + pnl(0)` and
      `equity(t) = equity(t - 1) * (1 + pnl(t))`. */
  lemma BacktestEquity(prices: Panel, weights: Panel, m: nat, commissionBps: real, slippageBps: real, t: nat)
    requires WellFormed(prices, m) && StrictlyIncreasing(prices.dates) && PositivePrices(prices.cells)
    requires WellFormed(weights, m) && Distinct(weights.dates)
    requires t < |RunBacktest(prices, weights, m, commissionBps, slippageBps).value.dates|
    ensures var r := RunBacktest(prices, weights, m, commissionBps, slippageBps).value;
            r.equityCurve[t] == Grow(if t == 0 then 1.0 else r.equityCurve[t - 1], r.dailyPnl[t])
  {
    var W := Aligned(prices.dates, weights, m);
    var R := Returns(prices.cells, m);
    var st := Start(W);
    SimulateEquity(prices.dates[st..], W[st..], R[st..], m, CostRate(commissionBps, slippageBps), t);
  }

  lemma SimulateEquity(dates: seq<Date>, W: seq<seq<real>>, R: seq<seq<real>>, m: nat, rate: real, t: nat)
    requires Rect(W, m) && Rect(R, m) && |W| == |R| == |dates| && t < |dates|
    ensures var r := Simulate(dates, W, R, m, rate);
            r.equityCurve[t] == Grow(if t == 0 then 1.0 else r.equityCurve[t - 1], r.dailyPnl[t])
  {
    var r := Simulate(dates, W, R, m, rate);
    CumProdStep(r.dailyPnl, t);
  }
}
