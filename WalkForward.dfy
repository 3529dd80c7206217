/**
 * Walk-forward training and scoring over the step index `i` into the sorted
 * list of feature dates (quant/model.py, `walkforward_train_predict`).
 *
 * The regression pipeline (standardiser + ridge) is abstracted as two
 * caller-supplied functions: `fit` turns training rows into a model
 * snapshot, and `predict` scores one feature vector with a snapshot. What the
 * model states is the retrain schedule carried by `last_fit_i`, the training
 * window of each refit, which snapshot scores which date, and the error paths.
 */
module WalkForward {
  import opened Common

  /** One row of the feature matrix X, keyed by (date, symbol), with its aligned label from y. */
  datatype Sample = Sample(date: Date, symbol: Symbol, features: seq<real>, forwardReturn: real)

  /** One entry of the returned score series, keyed by (date, symbol). */
  datatype Score = Score(date: Date, symbol: Symbol, value: real)

  datatype Error =
    | UnsupportedModel(name: string)  // ValueError before any step runs
    | NoScores                        // RuntimeError after the loop

  const SUPPORTED_MODEL: string := "ridge"
  /** Steps i < 5 are skipped whatever the training window. */
  const WARMUP_STEPS: nat := 5

  // ---------------------------------------------------------------------------
  // The retrain schedule, as a function of the step index alone
  // ---------------------------------------------------------------------------

  /** The two `continue`s at the top of the loop body. */
  predicate Skipped(i: nat, trainWindow: int) {
    i < WARMUP_STEPS || i < trainWindow
  }

  /** The first step that is not skipped, `max(5, train_window)`. */
  function FirstStep(trainWindow: int): (s: nat)
    ensures !Skipped(s, trainWindow)
    ensures forall i: nat :: i < s ==> Skipped(i, trainWindow)
  {
    if trainWindow < WARMUP_STEPS as int then WARMUP_STEPS else trainWindow
  }

  /** The refit condition: no fit yet, or the last one is at least `retrain_freq` steps old. */
  predicate Retrains(i: nat, lastFit: Option<nat>, retrainFreq: int) {
    lastFit.None? || i - lastFit.value >= retrainFreq
  }

  /** The value of `last_fit_i` once steps 0 .. n-1 have run. */
  function LastFitAfter(n: nat, trainWindow: int, retrainFreq: int): (r: Option<nat>)
    ensures r.Some? ==> FirstStep(trainWindow) <= r.value < n
    ensures r.None? <==> n <= FirstStep(trainWindow)
  {
    if n == 0 then None
    else
      var prev := LastFitAfter(n - 1, trainWindow, retrainFreq);
      if Skipped(n - 1, trainWindow) then prev
      else if Retrains(n - 1, prev, retrainFreq) then Some(n - 1)
      else prev
  }

  /** Step i refits the model. */
  predicate RefitAt(i: nat, trainWindow: int, retrainFreq: int) {
    !Skipped(i, trainWindow) && Retrains(i, LastFitAfter(i, trainWindow, retrainFreq), retrainFreq)
  }

  /** The steps below n that refit, in increasing order. */
  function RefitSchedule(n: nat, trainWindow: int, retrainFreq: int): (r: seq<nat>)
    ensures forall k: nat :: k in r <==> k < n && RefitAt(k, trainWindow, retrainFreq)
    ensures forall a, b :: 0 <= a < b < |r| ==> r[a] < r[b]
  {
    if n == 0 then []
    else
      var prev := RefitSchedule(n - 1, trainWindow, retrainFreq);
      assert forall a :: 0 <= a < |prev| ==> prev[a] in prev;
      prev + (if RefitAt(n - 1, trainWindow, retrainFreq) then [n - 1] else [])
  }

  // ---------------------------------------------------------------------------
  // Data seen by each step
  // ---------------------------------------------------------------------------

  /**
   * The rows of X whose date satisfies `keep`, in X's order (a boolean mask and `X.loc`).
   * `RowsWhereHits` states the order: the result is X at the indices `MaskHits` lists.
   */
  function RowsWhere(X: seq<Sample>, keep: Date -> bool): (r: seq<Sample>)
    ensures |r| <= |X|
    ensures forall k :: 0 <= k < |r| ==> keep(r[k].date)
    ensures forall x :: x in r <==> x in X && keep(x.date)
    decreases |X|
  {
    if X == [] then []
    else
      assert X == [X[0]] + X[1..];
      (if keep(X[0].date) then [X[0]] else []) + RowsWhere(X[1..], keep)
  }

  /** The indices from k on of the rows of X that pass the mask, in increasing order. */
  function MaskHits(X: seq<Sample>, keep: Date -> bool, k: nat): (idx: seq<nat>)
    requires k <= |X|
    ensures forall j :: 0 <= j < |idx| ==> k <= idx[j] < |X| && keep(X[idx[j]].date)
    ensures forall m :: k <= m < |X| && keep(X[m].date) ==> m in idx
    ensures forall i, j :: 0 <= i < j < |idx| ==> idx[i] < idx[j]
    decreases |X| - k
  {
    if k == |X| then []
    else
      var rest := MaskHits(X, keep, k + 1);
      if keep(X[k].date) then
        var idx := [k] + rest;
        assert forall j :: 1 <= j < |idx| ==> idx[j] == rest[j - 1];
        idx
      else rest
  }

  /** r lists the rows of X at the indices idx, in that order. */
  predicate Picks(r: seq<Sample>, X: seq<Sample>, idx: seq<nat>) {
    |r| == |idx| && forall j :: 0 <= j < |idx| ==> idx[j] < |X| && r[j] == X[idx[j]]
  }

  lemma PicksCons(r: seq<Sample>, X: seq<Sample>, idx: seq<nat>, k: nat)
    requires k < |X| && Picks(r, X, idx)
    ensures Picks([X[k]] + r, X, [k] + idx)
  {
    var r', idx' := [X[k]] + r, [k] + idx;
    forall j | 1 <= j < |idx'| ensures idx'[j] < |X| && r'[j] == X[idx'[j]] {
      assert r'[j] == r[j - 1] && idx'[j] == idx[j - 1];
    }
  }

  /**
   * The masked rows of `X[k..]` are exactly X at the passing indices, in order:
   * an order-preserving subsequence.
   */
  lemma {:induction false} RowsWhereHits(X: seq<Sample>, keep: Date -> bool, k: nat)
    requires k <= |X|
    ensures Picks(RowsWhere(X[k..], keep), X, MaskHits(X, keep, k))
    decreases |X| - k
  {
    if k < |X| {
      RowsWhereHits(X, keep, k + 1);
      var tail := X[k + 1..];
      var rows, hits := RowsWhere(tail, keep), MaskHits(X, keep, k + 1);
      assert X[k..][0] == X[k] && X[k..][1..] == tail;
      if keep(X[k].date) {
        assert RowsWhere(X[k..], keep) == [X[k]] + rows;
        assert MaskHits(X, keep, k) == [k] + hits;
        PicksCons(rows, X, hits, k);
      } else {
        assert RowsWhere(X[k..], keep) == rows;
        assert MaskHits(X, keep, k) == hits;
      }
    }
  }

  /** `dates[i - train_window : i]`. */
  function Window(dates: seq<Date>, i: nat, trainWindow: nat): seq<Date>
    requires trainWindow <= i <= |dates|
  {
    dates[i - trainWindow .. i]
  }

  /** The training rows of a refit at step f: every row dated inside the window. */
  function TrainingRows(X: seq<Sample>, dates: seq<Date>, f: nat, trainWindow: nat): seq<Sample>
    requires trainWindow <= f <= |dates|
  {
    var w := Window(dates, f, trainWindow);
    RowsWhere(X, d => d in w)
  }

  /** The rows of date d, `X.loc[X.index.get_level_values(0) == d]`. */
  function RowsOn(X: seq<Sample>, d: Date): seq<Sample> {
    RowsWhere(X, e => e == d)
  }

  /** The predictions of one snapshot for the cross-section of date d. */
  function Predictions<M>(X: seq<Sample>, d: Date, mdl: M, predict: (M, seq<real>) -> real): (r: seq<Score>)
    ensures |r| == |RowsOn(X, d)|
    ensures forall k :: 0 <= k < |r| ==> r[k].date == d
    ensures forall k :: 0 <= k < |r| ==>
              r[k].symbol == RowsOn(X, d)[k].symbol && r[k].value == predict(mdl, RowsOn(X, d)[k].features)
  {
    var rows := RowsOn(X, d);
    seq(|rows|, k requires 0 <= k < |rows| => Score(rows[k].date, rows[k].symbol, predict(mdl, rows[k].features)))
  }

  /**
   * The predictions for date d are keyed by X's own rows: every row dated d has a score
   * with its symbol and the snapshot's prediction on its features, and every score
   * comes from such a row.
   */
  lemma PredictionsKeyed<M>(X: seq<Sample>, d: Date, mdl: M, predict: (M, seq<real>) -> real)
    ensures forall x :: x in X && x.date == d ==>
              Score(d, x.symbol, predict(mdl, x.features)) in Predictions(X, d, mdl, predict)
    ensures forall sc :: sc in Predictions(X, d, mdl, predict) ==>
              exists x :: x in X && x.date == d && sc == Score(d, x.symbol, predict(mdl, x.features))
  {
    var rows, r := RowsOn(X, d), Predictions(X, d, mdl, predict);
    forall x | x in X && x.date == d ensures Score(d, x.symbol, predict(mdl, x.features)) in r {
      assert x in rows;
      var k :| 0 <= k < |rows| && rows[k] == x;
      assert r[k] == Score(d, x.symbol, predict(mdl, x.features));
    }
    forall sc | sc in r ensures exists x :: x in X && x.date == d && sc == Score(d, x.symbol, predict(mdl, x.features)) {
      var k :| 0 <= k < |r| && r[k] == sc;
      assert rows[k] in rows;
    }
  }

  /** What step i appends to the score list: nothing when it is skipped, otherwise
      the predictions for date i of the snapshot fitted at the current `last_fit_i`. */
  function StepScores<M>(X: seq<Sample>, dates: seq<Date>, i: nat, trainWindow: nat, retrainFreq: int,
                         fit: seq<Sample> -> M, predict: (M, seq<real>) -> real): seq<Score>
    requires i < |dates|
  {
    if Skipped(i, trainWindow) then []
    else match LastFitAfter(i + 1, trainWindow, retrainFreq)
      case None => []
      case Some(f) => Predictions(X, dates[i], fit(TrainingRows(X, dates, f, trainWindow)), predict)
  }

  /** The scores appended by every step, as one total function of the step index. */
  function StepFn<M>(X: seq<Sample>, dates: seq<Date>, trainWindow: nat, retrainFreq: int,
                     fit: seq<Sample> -> M, predict: (M, seq<real>) -> real): nat -> seq<Score>
  {
    (i: nat) => if i < |dates| then StepScores(X, dates, i, trainWindow, retrainFreq, fit, predict) else []
  }

  /** `step(0) + step(1) + ... + step(n - 1)`. */
  function Concat(step: nat -> seq<Score>, n: nat): seq<Score> {
    if n == 0 then [] else Concat(step, n - 1) + step(n - 1)
  }

  /** The concatenated score list once steps 0 .. n-1 have run. */
  function Emitted<M>(X: seq<Sample>, dates: seq<Date>, n: nat, trainWindow: nat, retrainFreq: int,
                      fit: seq<Sample> -> M, predict: (M, seq<real>) -> real): seq<Score>
    requires n <= |dates|
  {
    Concat(StepFn(X, dates, trainWindow, retrainFreq, fit, predict), n)
  }

  // ---------------------------------------------------------------------------
  // `sort_index()` on the (date, symbol) index
  // ---------------------------------------------------------------------------

  /** Lexicographic order on symbols, as Python compares strings. */
  predicate SymbolLe(a: Symbol, b: Symbol)
    decreases |a|
  {
    if a == [] then true
    else if b == [] then false
    else if a[0] != b[0] then a[0] < b[0]
    else SymbolLe(a[1..], b[1..])
  }

  lemma {:induction false} SymbolLeTotal(a: Symbol, b: Symbol)
    ensures SymbolLe(a, b) || SymbolLe(b, a)
    decreases |a|
  {
    if a != [] && b != [] && a[0] == b[0] {
      SymbolLeTotal(a[1..], b[1..]);
    }
  }

  predicate KeyLe(x: Score, y: Score) {
    x.date < y.date || (x.date == y.date && SymbolLe(x.symbol, y.symbol))
  }

  predicate SortedByKey(s: seq<Score>) {
    forall k :: 0 < k < |s| ==> KeyLe(s[k - 1], s[k])
  }

  function InsertByKey(x: Score, s: seq<Score>): (r: seq<Score>)
    requires SortedByKey(s)
    ensures SortedByKey(r)
    ensures multiset(r) == multiset(s) + multiset{x}
    ensures |r| == |s| + 1 && (r[0] == x || (s != [] && r[0] == s[0]))
  {
    if s == [] then [x]
    else if KeyLe(x, s[0]) then [x] + s
    else
      SymbolLeTotal(x.symbol, s[0].symbol);
      assert s == [s[0]] + s[1..];
      [s[0]] + InsertByKey(x, s[1..])
  }

  function SortByKey(s: seq<Score>): (r: seq<Score>)
    ensures SortedByKey(r)
    ensures multiset(r) == multiset(s)
  {
    if s == [] then []
    else
      assert s == [s[0]] + s[1..];
      InsertByKey(s[0], SortByKey(s[1..]))
  }

  // ---------------------------------------------------------------------------
  // The loop
  // ---------------------------------------------------------------------------

  /**
   * `walkforward_train_predict`. The ghost `fits` records the step index of
   * every `mdl.fit` call. `train_window >= 1` because a fit on an empty
   * training set is not modelled.
   */
  method TrainPredict<M>(X: seq<Sample>, dates: seq<Date>, trainWindow: int, retrainFreq: int,
                         modelName: string, fit: seq<Sample> -> M, predict: (M, seq<real>) -> real)
    returns (result: Result<seq<Score>, Error>, ghost fits: seq<nat>)
    requires trainWindow >= 1
    ensures modelName != SUPPORTED_MODEL ==> result == Err(UnsupportedModel(modelName)) && fits == []
    ensures modelName == SUPPORTED_MODEL ==> fits == RefitSchedule(|dates|, trainWindow, retrainFreq)
    ensures modelName == SUPPORTED_MODEL ==>
              var e := Emitted(X, dates, |dates|, trainWindow, retrainFreq, fit, predict);
              result == if e == [] then Err(NoScores) else Ok(SortByKey(e))
    ensures result.Ok? ==>
              SortedByKey(result.value) &&
              multiset(result.value) == multiset(Emitted(X, dates, |dates|, trainWindow, retrainFreq, fit, predict))
  {
    fits := [];
    if modelName != SUPPORTED_MODEL {
      return Err(UnsupportedModel(modelName)), fits;
    }
    var lastFit: Option<nat> := None;
    var mdl: Option<M> := None;
    var scores: seq<Score> := [];
    for i := 0 to |dates|
      invariant lastFit == LastFitAfter(i, trainWindow, retrainFreq)
      invariant lastFit.Some? ==> lastFit.value <= |dates| && lastFit.value >= trainWindow
      invariant lastFit.Some? ==> mdl == Some(fit(TrainingRows(X, dates, lastFit.value, trainWindow)))
      invariant scores == Emitted(X, dates, i, trainWindow, retrainFreq, fit, predict)
      invariant fits == RefitSchedule(i, trainWindow, retrainFreq)
    {
      StepUnfold(X, dates, i, trainWindow, retrainFreq, fit, predict);
      if i < WARMUP_STEPS {
        assert Skipped(i, trainWindow);
        continue;
      }
      if i < trainWindow {
        assert Skipped(i, trainWindow);
        continue;
      }
      // Retrain schedule
      if lastFit.None? || i - lastFit.value >= retrainFreq {
        assert RefitAt(i, trainWindow, retrainFreq);
        var train := TrainingRows(X, dates, i, trainWindow);
        mdl := Some(fit(train));
        lastFit := Some(i);
        fits := fits + [i];
      } else {
        assert !RefitAt(i, trainWindow, retrainFreq);
      }
      assert lastFit == LastFitAfter(i + 1, trainWindow, retrainFreq);
      // Predict for date d
      var test := RowsOn(X, dates[i]);
      if |test| == 0 {
        continue;
      }
      scores := scores + Predictions(X, dates[i], mdl.value, predict);
    }
    if scores == [] {
      result := Err(NoScores);
    } else {
      result := Ok(SortByKey(scores));
    }
  }

  /** One step of the loop in terms of the schedule and score functions. */
  lemma StepUnfold<M>(X: seq<Sample>, dates: seq<Date>, i: nat, trainWindow: nat, retrainFreq: int,
                      fit: seq<Sample> -> M, predict: (M, seq<real>) -> real)
    requires i < |dates|
    ensures Emitted(X, dates, i + 1, trainWindow, retrainFreq, fit, predict)
            == Emitted(X, dates, i, trainWindow, retrainFreq, fit, predict)
               + StepScores(X, dates, i, trainWindow, retrainFreq, fit, predict)
    ensures RefitSchedule(i + 1, trainWindow, retrainFreq)
            == RefitSchedule(i, trainWindow, retrainFreq)
               + (if RefitAt(i, trainWindow, retrainFreq) then [i] else [])
    ensures LastFitAfter(i + 1, trainWindow, retrainFreq)
            == if RefitAt(i, trainWindow, retrainFreq) then Some(i) else LastFitAfter(i, trainWindow, retrainFreq)
  {
    assert StepFn(X, dates, trainWindow, retrainFreq, fit, predict)(i)
           == StepScores(X, dates, i, trainWindow, retrainFreq, fit, predict);
  }

  // ---------------------------------------------------------------------------
  // Properties of the schedule
  // ---------------------------------------------------------------------------

  lemma DivModUnique(x: int, d: int, q: int, r: int)
    requires d >= 1 && 0 <= r < d && x == q * d + r
    ensures x / d == q && x % d == r
  {
    var q0, r0 := x / d, x % d;
    assert x == q0 * d + r0;
    assert (q - q0) * d == q * d - q0 * d;
    assert (q0 - q) * d == q0 * d - q * d;
    if q > q0 {
      MulAtLeast(q - q0, d);
    } else if q < q0 {
      MulAtLeast(q0 - q, d);
    }
  }

  lemma MulAtLeast(a: int, d: int)
    requires a >= 1 && d >= 1
    ensures a * d >= d
  {
  }

  /** Stepping a remainder: `(x + 1) % d` wraps to 0 exactly after `d - 1`. */
  lemma ModStep(x: int, d: int)
    requires x >= 0 && d >= 1
    ensures (x + 1) % d == if x % d == d - 1 then 0 else x % d + 1
  {
    var q, r := x / d, x % d;
    assert (q + 1) * d == q * d + d;
    if r == d - 1 {
      DivModUnique(x + 1, d, q + 1, 0);
    } else {
      DivModUnique(x + 1, d, q, r + 1);
    }
  }

  /** How many steps after the latest refit step i is, counted without division:
      0 at s, then up by one per step and back to 0 after `freq - 1`. */
  function Phase(i: nat, s: nat, retrainFreq: int): (p: int)
    requires s <= i && retrainFreq >= 1
    ensures 0 <= p < retrainFreq
    decreases i
  {
    if i == s then 0
    else
      var p := Phase(i - 1, s, retrainFreq);
      if p == retrainFreq - 1 then 0 else p + 1
  }

  lemma {:induction false} PhaseIsRemainder(i: nat, s: nat, retrainFreq: int)
    requires s <= i && retrainFreq >= 1
    ensures Phase(i, s, retrainFreq) == (i - s) % retrainFreq
    decreases i
  {
    if i > s {
      PhaseIsRemainder(i - 1, s, retrainFreq);
      ModStep(i - 1 - s, retrainFreq);
    }
  }

  lemma {:induction false} LastFitByPhase(i: nat, trainWindow: int, retrainFreq: int)
    requires retrainFreq >= 1 && i >= FirstStep(trainWindow)
    ensures LastFitAfter(i + 1, trainWindow, retrainFreq)
            == Some(i - Phase(i, FirstStep(trainWindow), retrainFreq))
    decreases i
  {
    var s := FirstStep(trainWindow);
    if i == s {
      assert LastFitAfter(i, trainWindow, retrainFreq) == None;
    } else {
      LastFitByPhase(i - 1, trainWindow, retrainFreq);
    }
  }

  /** With `retrain_freq >= 1`, after step i >= s the last fit is the latest step of
      the arithmetic grid s, s + freq, s + 2 freq, ... not after i. */
  lemma LastFitClosedForm(i: nat, trainWindow: int, retrainFreq: int)
    requires retrainFreq >= 1 && i >= FirstStep(trainWindow)
    ensures LastFitAfter(i + 1, trainWindow, retrainFreq)
            == Some(i - (i - FirstStep(trainWindow)) % retrainFreq)
  {
    LastFitByPhase(i, trainWindow, retrainFreq);
    PhaseIsRemainder(i, FirstStep(trainWindow), retrainFreq);
  }

  /** With `retrain_freq >= 1` the refits happen exactly at s, s + freq, s + 2 freq, ...
      where s = max(5, train_window); whether a step has rows to score plays no part. */
  lemma RefitAtArithmetic(i: nat, trainWindow: int, retrainFreq: int)
    requires retrainFreq >= 1
    ensures RefitAt(i, trainWindow, retrainFreq)
            <==> i >= FirstStep(trainWindow) && (i - FirstStep(trainWindow)) % retrainFreq == 0
  {
    if i >= FirstStep(trainWindow) {
      LastFitClosedForm(i, trainWindow, retrainFreq);
      assert RefitAt(i, trainWindow, retrainFreq) <==> LastFitAfter(i + 1, trainWindow, retrainFreq) == Some(i);
    }
  }

  lemma RefitScheduleArithmetic(n: nat, trainWindow: int, retrainFreq: int)
    requires retrainFreq >= 1
    ensures forall k :: k in RefitSchedule(n, trainWindow, retrainFreq)
              <==> FirstStep(trainWindow) <= k < n && (k - FirstStep(trainWindow)) % retrainFreq == 0
  {
    forall k: nat ensures RefitAt(k, trainWindow, retrainFreq)
              <==> k >= FirstStep(trainWindow) && (k - FirstStep(trainWindow)) % retrainFreq == 0 {
      RefitAtArithmetic(k, trainWindow, retrainFreq);
    }
  }

  /** With `retrain_freq <= 1` (including zero and negative values) every step that is not skipped refits. */
  lemma RefitEveryStep(i: nat, trainWindow: int, retrainFreq: int)
    requires retrainFreq <= 1
    ensures RefitAt(i, trainWindow, retrainFreq) <==> i >= FirstStep(trainWindow)
  {
  }

  /**
   * No look-ahead: the snapshot that scores step i was fitted at a step f with
   * s <= f <= i and i - f < retrain_freq, on exactly `train_window` dates that
   * all precede date i, so none of its training rows is dated i or later.
   */
  lemma NoLookAhead(X: seq<Sample>, dates: seq<Date>, i: nat, trainWindow: nat, retrainFreq: int)
    requires i < |dates| && !Skipped(i, trainWindow)
    ensures LastFitAfter(i + 1, trainWindow, retrainFreq).Some?
    ensures var f := LastFitAfter(i + 1, trainWindow, retrainFreq).value;
            && FirstStep(trainWindow) <= f <= i
            && (retrainFreq >= 1 ==> i - f < retrainFreq)
            && |Window(dates, f, trainWindow)| == trainWindow
            && (StrictlyIncreasing(dates) ==>
                  (forall d :: d in Window(dates, f, trainWindow) ==> d < dates[i])
                  && forall r :: r in TrainingRows(X, dates, f, trainWindow) ==> r.date < dates[i])
  {
    var f := LastFitAfter(i + 1, trainWindow, retrainFreq).value;
    if StrictlyIncreasing(dates) {
      var w := Window(dates, f, trainWindow);
      forall d | d in w ensures d < dates[i] {
        var k :| 0 <= k < |w| && w[k] == d;
        assert d == dates[f - trainWindow + k];
      }
    }
  }

  // ---------------------------------------------------------------------------
  // Properties of the emitted scores
  // ---------------------------------------------------------------------------

  /** The scores of a list that carry date d, in order. */
  function ScoresOn(s: seq<Score>, d: Date): (r: seq<Score>)
  {
    if s == [] then [] else (if s[0].date == d then [s[0]] else []) + ScoresOn(s[1..], d)
  }

  lemma {:induction false} ScoresOnAppend(a: seq<Score>, b: seq<Score>, d: Date)
    ensures ScoresOn(a + b, d) == ScoresOn(a, d) + ScoresOn(b, d)
    decreases |a|
  {
    if a == [] {
      assert a + b == b;
    } else {
      assert (a + b)[1..] == a[1..] + b;
      ScoresOnAppend(a[1..], b, d);
    }
  }

  lemma {:induction false} ScoresOnAll(s: seq<Score>, d: Date)
    requires forall k :: 0 <= k < |s| ==> s[k].date == d
    ensures ScoresOn(s, d) == s
    decreases |s|
  {
    if s != [] {
      ScoresOnAll(s[1..], d);
      assert s == [s[0]] + s[1..];
    }
  }

  lemma {:induction false} ScoresOnNone(s: seq<Score>, d: Date)
    requires forall k :: 0 <= k < |s| ==> s[k].date != d
    ensures ScoresOn(s, d) == []
    decreases |s|
  {
    if s != [] {
      ScoresOnNone(s[1..], d);
    }
  }

  /** Appending scores all dated d to a list with none dated d. */
  lemma ScoresOnNewDate(prev: seq<Score>, last: seq<Score>, d: Date)
    requires ScoresOn(prev, d) == []
    requires forall k :: 0 <= k < |last| ==> last[k].date == d
    ensures ScoresOn(prev + last, d) == last
  {
    ScoresOnAppend(prev, last, d);
    ScoresOnAll(last, d);
    assert [] + last == last;
  }

  /** Appending scores dated e != d does not change the scores of date d. */
  lemma ScoresOnOtherDate(prev: seq<Score>, last: seq<Score>, d: Date, e: Date)
    requires e != d
    requires forall k :: 0 <= k < |last| ==> last[k].date == e
    ensures ScoresOn(prev + last, d) == ScoresOn(prev, d)
  {
    ScoresOnAppend(prev, last, d);
    ScoresOnNone(last, d);
    assert ScoresOn(prev, d) + [] == ScoresOn(prev, d);
  }

  lemma StepScoresDated<M>(X: seq<Sample>, dates: seq<Date>, i: nat, trainWindow: nat, retrainFreq: int,
                           fit: seq<Sample> -> M, predict: (M, seq<real>) -> real)
    requires i < |dates|
    ensures forall k :: 0 <= k < |StepScores(X, dates, i, trainWindow, retrainFreq, fit, predict)| ==>
              StepScores(X, dates, i, trainWindow, retrainFreq, fit, predict)[k].date == dates[i]
  {
  }

  lemma StepScoresEmptyIff<M>(X: seq<Sample>, dates: seq<Date>, i: nat, trainWindow: nat, retrainFreq: int,
                              fit: seq<Sample> -> M, predict: (M, seq<real>) -> real)
    requires i < |dates|
    ensures StepScores(X, dates, i, trainWindow, retrainFreq, fit, predict) == []
            <==> i < FirstStep(trainWindow) || RowsOn(X, dates[i]) == []
  {
    if !Skipped(i, trainWindow) {
      assert LastFitAfter(i + 1, trainWindow, retrainFreq).Some?;
    }
  }

  /** Every score of step i, for i < n, carries date `dates[i]`. */
  predicate StepsDated(step: nat -> seq<Score>, dates: seq<Date>, n: nat)
    requires n <= |dates|
  {
    forall i: nat, k :: i < n && 0 <= k < |step(i)| ==> step(i)[k].date == dates[i]
  }

  /** Every score in e carries one of the dates in ds. */
  predicate DatedIn(e: seq<Score>, ds: seq<Date>) {
    forall k :: 0 <= k < |e| ==> e[k].date in ds
  }

  lemma DatedInAppend(prev: seq<Score>, last: seq<Score>, ds: seq<Date>, d: Date)
    requires DatedIn(prev, ds)
    requires forall k :: 0 <= k < |last| ==> last[k].date == d
    ensures DatedIn(prev + last, ds + [d])
  {
    var e := prev + last;
    forall k | 0 <= k < |e| ensures e[k].date in ds + [d] {
      if k < |prev| {
        assert e[k] == prev[k];
      } else {
        assert e[k] == last[k - |prev|];
      }
    }
  }

  lemma {:induction false} ConcatDated(step: nat -> seq<Score>, dates: seq<Date>, n: nat)
    requires n <= |dates| && StepsDated(step, dates, n)
    ensures DatedIn(Concat(step, n), dates[..n])
    decreases n
  {
    if n > 0 {
      ConcatDated(step, dates, n - 1);
      DatedInAppend(Concat(step, n - 1), step(n - 1), dates[..n - 1], dates[n - 1]);
      assert dates[..n - 1] + [dates[n - 1]] == dates[..n];
    }
  }

  lemma ConcatBefore(step: nat -> seq<Score>, dates: seq<Date>, n: nat, i: nat)
    requires StrictlyIncreasing(dates) && n <= i < |dates| && StepsDated(step, dates, n)
    ensures ScoresOn(Concat(step, n), dates[i]) == []
  {
    var e := Concat(step, n);
    ConcatDated(step, dates, n);
    forall k | 0 <= k < |e| ensures e[k].date != dates[i] {
      assert e[k].date in dates[..n];
      var j :| 0 <= j < n && dates[..n][j] == e[k].date;
      assert dates[j] < dates[i];
    }
    ScoresOnNone(e, dates[i]);
  }

  lemma {:induction false} ConcatCoverage(step: nat -> seq<Score>, dates: seq<Date>, n: nat, i: nat)
    requires StrictlyIncreasing(dates) && i < n <= |dates| && StepsDated(step, dates, n)
    ensures ScoresOn(Concat(step, n), dates[i]) == step(i)
    decreases n
  {
    var prev := Concat(step, n - 1);
    var last := step(n - 1);
    assert forall k :: 0 <= k < |last| ==> last[k].date == dates[n - 1];
    if i == n - 1 {
      ConcatBefore(step, dates, n - 1, i);
      ScoresOnNewDate(prev, last, dates[i]);
    } else {
      ConcatCoverage(step, dates, n - 1, i);
      ScoresOnOtherDate(prev, last, dates[i], dates[n - 1]);
    }
  }

  lemma {:induction false} ConcatEmptyIff(step: nat -> seq<Score>, n: nat)
    ensures Concat(step, n) == [] <==> forall i: nat :: i < n ==> step(i) == []
    decreases n
  {
    if n > 0 {
      ConcatEmptyIff(step, n - 1);
      var prev, last := Concat(step, n - 1), step(n - 1);
      assert |prev + last| == |prev| + |last|;
    }
  }

  lemma StepFnDated<M>(X: seq<Sample>, dates: seq<Date>, n: nat, trainWindow: nat, retrainFreq: int,
                       fit: seq<Sample> -> M, predict: (M, seq<real>) -> real)
    requires n <= |dates|
    ensures StepsDated(StepFn(X, dates, trainWindow, retrainFreq, fit, predict), dates, n)
  {
    var step := StepFn(X, dates, trainWindow, retrainFreq, fit, predict);
    forall i: nat | i < n ensures forall k :: 0 <= k < |step(i)| ==> step(i)[k].date == dates[i] {
      assert step(i) == StepScores(X, dates, i, trainWindow, retrainFreq, fit, predict);
      StepScoresDated(X, dates, i, trainWindow, retrainFreq, fit, predict);
    }
  }

  /**
   * For strictly increasing dates, the scores of date `dates[i]` in the
   * list emitted by the first n steps are exactly what step i emitted: the
   * predictions for every row dated `dates[i]` when i is not skipped, nothing
   * otherwise.
   */
  lemma EmittedCoverage<M>(X: seq<Sample>, dates: seq<Date>, n: nat, i: nat,
                           trainWindow: nat, retrainFreq: int,
                           fit: seq<Sample> -> M, predict: (M, seq<real>) -> real)
    requires StrictlyIncreasing(dates) && i < n <= |dates|
    ensures ScoresOn(Emitted(X, dates, n, trainWindow, retrainFreq, fit, predict), dates[i])
            == StepScores(X, dates, i, trainWindow, retrainFreq, fit, predict)
  {
    var step := StepFn(X, dates, trainWindow, retrainFreq, fit, predict);
    StepFnDated(X, dates, n, trainWindow, retrainFreq, fit, predict);
    ConcatCoverage(step, dates, n, i);
    assert step(i) == StepScores(X, dates, i, trainWindow, retrainFreq, fit, predict);
  }

  /** The snapshot that scores step i: the model fitted at the current `last_fit_i`. */
  function Snapshot<M>(X: seq<Sample>, dates: seq<Date>, i: nat, trainWindow: nat, retrainFreq: int,
                       fit: seq<Sample> -> M): M
    requires i < |dates| && !Skipped(i, trainWindow)
  {
    assert i >= FirstStep(trainWindow);
    var f := LastFitAfter(i + 1, trainWindow, retrainFreq).value;
    fit(TrainingRows(X, dates, f, trainWindow))
  }

  /**
   * For a step that is not skipped, the emitted scores of `dates[i]` are keyed by exactly
   * the symbols of X's rows dated `dates[i]`, each valued by the step's snapshot on that
   * row's features.
   */
  lemma EmittedKeys<M>(X: seq<Sample>, dates: seq<Date>, n: nat, i: nat,
                       trainWindow: nat, retrainFreq: int,
                       fit: seq<Sample> -> M, predict: (M, seq<real>) -> real)
    requires StrictlyIncreasing(dates) && i < n <= |dates| && !Skipped(i, trainWindow)
    ensures var d, mdl := dates[i], Snapshot(X, dates, i, trainWindow, retrainFreq, fit);
            var on := ScoresOn(Emitted(X, dates, n, trainWindow, retrainFreq, fit, predict), d);
            (forall x :: x in X && x.date == d ==> Score(d, x.symbol, predict(mdl, x.features)) in on) &&
            (forall sc :: sc in on ==> exists x :: x in X && x.date == d && sc == Score(d, x.symbol, predict(mdl, x.features)))
  {
    EmittedCoverage(X, dates, n, i, trainWindow, retrainFreq, fit, predict);
    assert i >= FirstStep(trainWindow);
    PredictionsKeyed(X, dates[i], Snapshot(X, dates, i, trainWindow, retrainFreq, fit), predict);
  }

  /** Every score emitted by the first n steps carries one of the first n dates. */
  lemma EmittedDates<M>(X: seq<Sample>, dates: seq<Date>, n: nat,
                        trainWindow: nat, retrainFreq: int,
                        fit: seq<Sample> -> M, predict: (M, seq<real>) -> real)
    requires n <= |dates|
    ensures DatedIn(Emitted(X, dates, n, trainWindow, retrainFreq, fit, predict), dates[..n])
  {
    StepFnDated(X, dates, n, trainWindow, retrainFreq, fit, predict);
    ConcatDated(StepFn(X, dates, trainWindow, retrainFreq, fit, predict), dates, n);
  }

  /** No step from s up to n - 1 has a row to score. */
  predicate NothingToScore(X: seq<Sample>, dates: seq<Date>, s: nat, n: nat)
    requires n <= |dates|
  {
    forall i :: s <= i < n ==> RowsOn(X, dates[i]) == []
  }

  /** The call fails with `NoScores` exactly when no step that is not skipped has a row to
      score; in particular whenever there are no more than max(5, train_window) dates. */
  lemma EmittedEmptyIff<M>(X: seq<Sample>, dates: seq<Date>, n: nat,
                           trainWindow: nat, retrainFreq: int,
                           fit: seq<Sample> -> M, predict: (M, seq<real>) -> real)
    requires n <= |dates|
    ensures Emitted(X, dates, n, trainWindow, retrainFreq, fit, predict) == []
            <==> NothingToScore(X, dates, FirstStep(trainWindow), n)
  {
    var step := StepFn(X, dates, trainWindow, retrainFreq, fit, predict);
    ConcatEmptyIff(step, n);
    forall i: nat | i < n
      ensures step(i) == [] <==> i < FirstStep(trainWindow) || RowsOn(X, dates[i]) == []
    {
      StepScoresEmptyIff(X, dates, i, trainWindow, retrainFreq, fit, predict);
    }
  }

  // ---------------------------------------------------------------------------
  // No look-ahead in the data: rows dated after date i cannot change step i
  // ---------------------------------------------------------------------------

  /** The rows of X dated d or earlier. */
  function Past(X: seq<Sample>, d: Date): seq<Sample> {
    RowsWhere(X, e => e <= d)
  }

  lemma {:induction false} FilterOfFilter(X: seq<Sample>, keep: Date -> bool, within: Date -> bool)
    requires forall e :: keep(e) ==> within(e)
    ensures RowsWhere(RowsWhere(X, within), keep) == RowsWhere(X, keep)
    decreases |X|
  {
    if X != [] {
      FilterOfFilter(X[1..], keep, within);
      var rest := RowsWhere(X[1..], within);
      if within(X[0].date) {
        var once := [X[0]] + rest;
        assert RowsWhere(X, within) == once;
        assert once[0] == X[0] && once[1..] == rest;
        assert RowsWhere(once, keep) == (if keep(X[0].date) then [X[0]] else []) + RowsWhere(rest, keep);
      } else {
        assert RowsWhere(X, within) == rest;
      }
    }
  }

  /**
   * Replacing every row dated after `dates[i]` (features or labels, "poisoned"
   * future values) leaves what step i emits unchanged.
   */
  lemma FutureRowsIgnored<M>(X1: seq<Sample>, X2: seq<Sample>, dates: seq<Date>, i: nat,
                             trainWindow: nat, retrainFreq: int,
                             fit: seq<Sample> -> M, predict: (M, seq<real>) -> real)
    requires StrictlyIncreasing(dates) && i < |dates|
    requires Past(X1, dates[i]) == Past(X2, dates[i])
    ensures StepScores(X1, dates, i, trainWindow, retrainFreq, fit, predict)
            == StepScores(X2, dates, i, trainWindow, retrainFreq, fit, predict)
  {
    var d := dates[i];
    if !Skipped(i, trainWindow) {
      var f := LastFitAfter(i + 1, trainWindow, retrainFreq).value;
      NoLookAhead(X1, dates, i, trainWindow, retrainFreq);
      var w := Window(dates, f, trainWindow);
      var inWindow := e => e in w;
      var onDate := e => e == d;
      var upTo := e => e <= d;
      FilterOfFilter(X1, inWindow, upTo);
      FilterOfFilter(X2, inWindow, upTo);
      FilterOfFilter(X1, onDate, upTo);
      FilterOfFilter(X2, onDate, upTo);
      assert TrainingRows(X1, dates, f, trainWindow) == TrainingRows(X2, dates, f, trainWindow);
      assert RowsOn(X1, d) == RowsOn(X2, d);
    }
  }
}
