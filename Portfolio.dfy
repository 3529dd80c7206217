/**
 * Rank-based long/short weights per date (quant/portfolio.py,
 * `build_portfolio_from_scores`).
 *
 * The score series is a list of (date, symbol, score) rows with missing
 * scores as `None`. Each output row holds one date's symbols in ranked order
 * and their weights; a symbol that is not in a row has no entry there (a NaN
 * cell of the pandas frame). Weights are kept positionally in the ranked
 * order, which is what the label assignments of the source do when a date
 * lists each symbol once.
 */
module Portfolio {
  import opened Common

  datatype ScoreRow = ScoreRow(date: Date, symbol: Symbol, score: Option<real>)

  /** One valid (non-missing) score of a date's cross-section. */
  datatype Entry = Entry(symbol: Symbol, score: real)

  /** One output row: a date, its symbols in ranked order, and their weights. */
  datatype WeightRow = WeightRow(date: Date, symbols: seq<Symbol>, weights: seq<real>)

  /** Dates with fewer valid symbols than this are skipped. */
  const MIN_NAMES: nat := 5

  // ---------------------------------------------------------------------------
  // Grouping by date and dropping missing scores
  // ---------------------------------------------------------------------------

  function DatesOf(scores: seq<ScoreRow>): set<Date> {
    set k | 0 <= k < |scores| :: scores[k].date
  }

  /** `g.dropna()` for the group of date d: its scored rows, in input order. */
  function Valid(scores: seq<ScoreRow>, d: Date): (g: seq<Entry>)
    ensures |g| <= |scores|
  {
    if scores == [] then []
    else
      var r := scores[0];
      (if r.date == d && r.score.Some? then [Entry(r.symbol, r.score.value)] else []) + Valid(scores[1..], d)
  }

  /** A row of date d with a score contributes an entry to `Valid(scores, d)`. */
  lemma {:induction false} ValidHas(scores: seq<ScoreRow>, d: Date, k: nat)
    requires k < |scores| && scores[k].date == d && scores[k].score.Some?
    ensures Entry(scores[k].symbol, scores[k].score.value) in Valid(scores, d)
    decreases k
  {
    if k > 0 {
      ValidHas(scores[1..], d, k - 1);
    }
  }

  /** Every entry of `Valid(scores, d)` comes from a scored row of date d. */
  lemma {:induction false} ValidFrom(scores: seq<ScoreRow>, d: Date, e: Entry)
    requires e in Valid(scores, d)
    ensures exists k :: 0 <= k < |scores| && scores[k] == ScoreRow(d, e.symbol, Some(e.score))
    decreases |scores|
  {
    var r := scores[0];
    var head := if r.date == d && r.score.Some? then [Entry(r.symbol, r.score.value)] else [];
    if e in head {
      assert scores[0] == ScoreRow(d, e.symbol, Some(e.score));
    } else {
      assert e in Valid(scores[1..], d);
      ValidFrom(scores[1..], d, e);
      var k :| 0 <= k < |scores[1..]| && scores[1..][k] == ScoreRow(d, e.symbol, Some(e.score));
      assert scores[k + 1] == ScoreRow(d, e.symbol, Some(e.score));
    }
  }

  /** Insert d into a strictly increasing list of dates, keeping it duplicate-free. */
  function InsertDate(d: Date, ks: seq<Date>): (r: seq<Date>)
    requires StrictlyIncreasing(ks)
    ensures StrictlyIncreasing(r)
    ensures forall e :: e in r <==> e == d || e in ks
  {
    if ks == [] then [d]
    else if d < ks[0] then
      assert forall e :: e in ks ==> d < e by {
        forall e | e in ks ensures d < e {
          var k :| 0 <= k < |ks| && ks[k] == e;
          assert k == 0 || ks[0] < ks[k];
        }
      }
      IncreasingCons(d, ks);
      [d] + ks
    else if d == ks[0] then ks
    else
      var tail := ks[1..];
      assert StrictlyIncreasing(tail) by {
        forall i, j | 0 <= i < j < |tail| ensures tail[i] < tail[j] {
          assert tail[i] == ks[i + 1] && tail[j] == ks[j + 1];
        }
      }
      var rest := InsertDate(d, tail);
      assert forall e :: e in ks <==> e == ks[0] || e in tail;
      assert forall e :: e in rest ==> ks[0] < e by {
        forall e | e in rest ensures ks[0] < e {
          if e != d {
            var k :| 0 <= k < |tail| && tail[k] == e;
            assert tail[k] == ks[k + 1];
          }
        }
      }
      IncreasingCons(ks[0], rest);
      [ks[0]] + rest
  }

  /** The group keys of `groupby("date")`: the distinct dates, ascending. */
  function GroupKeys(scores: seq<ScoreRow>): (ks: seq<Date>)
    ensures StrictlyIncreasing(ks)
    ensures forall d :: d in ks <==> d in DatesOf(scores)
  {
    if scores == [] then []
    else
      var rest := GroupKeys(scores[1..]);
      assert forall d :: d in DatesOf(scores) <==> d == scores[0].date || d in DatesOf(scores[1..]) by {
        forall d | d in DatesOf(scores) ensures d == scores[0].date || d in DatesOf(scores[1..]) {
          var k :| 0 <= k < |scores| && scores[k].date == d;
          if k > 0 {
            assert scores[1..][k - 1].date == d;
          }
        }
        forall d | d in DatesOf(scores[1..]) ensures d in DatesOf(scores) {
          var k :| 0 <= k < |scores[1..]| && scores[1..][k].date == d;
          assert scores[k + 1].date == d;
        }
      }
      InsertDate(scores[0].date, rest)
  }

  /** The keys that produce an output row: at least `MIN_NAMES` valid scores. */
  function Kept(ks: seq<Date>, scores: seq<ScoreRow>): (r: seq<Date>)
    ensures forall d :: d in r <==> d in ks && |Valid(scores, d)| >= MIN_NAMES
    ensures StrictlyIncreasing(ks) ==> StrictlyIncreasing(r)
    ensures StrictlyIncreasing(ks) && ks != [] ==> forall d :: d in r ==> d <= ks[|ks| - 1]
  {
    if ks == [] then []
    else
      var init := ks[..|ks| - 1];
      var last := ks[|ks| - 1];
      assert forall d :: d in ks <==> d in init || d == last by {
        assert ks == init + [last];
      }
      var prev := Kept(init, scores);
      assert StrictlyIncreasing(ks) ==> StrictlyIncreasing(prev + [last]) by {
        if StrictlyIncreasing(ks) {
          assert StrictlyIncreasing(init) && forall d :: d in init ==> d < last;
          IncreasingSnoc(prev, last);
        }
      }
      prev + (if |Valid(scores, last)| >= MIN_NAMES then [last] else [])
  }

  // ---------------------------------------------------------------------------
  // Ranking
  // ---------------------------------------------------------------------------

  predicate SortedDesc(g: seq<Entry>) {
    forall i, j :: 0 <= i < j < |g| ==> g[i].score >= g[j].score
  }

  /** `sort_values("score", ascending=False)`: non-increasing scores, same entries.
      Ties may come out in any order. */
  predicate IsRanking(order: seq<Entry>, g: seq<Entry>) {
    SortedDesc(order) && multiset(order) == multiset(g)
  }

  function InsertDesc(x: Entry, s: seq<Entry>): (r: seq<Entry>)
    requires SortedDesc(s)
    ensures SortedDesc(r)
    ensures multiset(r) == multiset(s) + multiset{x}
    ensures |r| == |s| + 1 && (r[0] == x || (s != [] && r[0] == s[0]))
  {
    if s == [] then [x]
    else if x.score >= s[0].score then [x] + s
    else
      assert s == [s[0]] + s[1..];
      [s[0]] + InsertDesc(x, s[1..])
  }

  /** One ranking of g; only its being a ranking is used by the contracts below. */
  function SortDesc(g: seq<Entry>): (r: seq<Entry>)
    ensures IsRanking(r, g)
  {
    if g == [] then []
    else
      assert g == [g[0]] + g[1..];
      InsertDesc(g[0], SortDesc(g[1..]))
  }

  function ScoresOf(g: seq<Entry>): (r: seq<real>)
    ensures |r| == |g|
  {
    seq(|g|, j requires 0 <= j < |g| => g[j].score)
  }

  function SymbolsOf(g: seq<Entry>): (r: seq<Symbol>)
    ensures |r| == |g|
  {
    seq(|g|, j requires 0 <= j < |g| => g[j].symbol)
  }

  // ---------------------------------------------------------------------------
  // Book sizes and book weights
  // ---------------------------------------------------------------------------

  /** `max(1, int(np.floor(n * frac)))`. */
  function BookSize(n: nat, frac: real): (k: nat)
    ensures k >= 1
    ensures (n as real) * frac >= 1.0 ==> k as real <= (n as real) * frac < k as real + 1.0
    ensures (n as real) * frac < 1.0 ==> k == 1
  {
    var f := ((n as real) * frac).Floor;
    if f < 1 then 1 else f
  }

  /** `clip(lower=0.0)`. */
  function ClipLow(s: seq<real>): (r: seq<real>)
    ensures |r| == |s|
  {
    seq(|s|, j requires 0 <= j < |s| => if s[j] < 0.0 then 0.0 else s[j])
  }

  /** `-clip(upper=0.0)`: the magnitude of each negative score, 0 for the others. */
  function Magnitudes(s: seq<real>): (r: seq<real>)
    ensures |r| == |s|
  {
    seq(|s|, j requires 0 <= j < |s| => if s[j] > 0.0 then 0.0 else -s[j])
  }

  function Ones(n: nat): (r: seq<real>)
    ensures |r| == n
  {
    seq(n, j => 1.0)
  }

  /** Long-book weights from the scores of the top symbols: proportional to the
      clipped scores, or equal when those sum to 0 or less, scaled to `0.5 * G`. */
  function LongWeights(top: seq<real>, gross: real): (r: seq<real>)
    ensures |r| == |top|
  {
    if top == [] then []
    else
      var c := ClipLow(top);
      if Sum(c) <= 0.0 then Rescale(Ones(|top|), |top| as real, 0.5 * gross)
      else Rescale(c, Sum(c), 0.5 * gross)
  }

  /** Short-book weights from the scores of the bottom symbols: `None` (the book is
      left alone) when no magnitude is positive, else proportional to the magnitudes
      and scaled to `-0.5 * G`. */
  function ShortWeights(bottom: seq<real>, gross: real): (r: Option<seq<real>>)
    ensures r.Some? ==> |r.value| == |bottom|
  {
    var m := Magnitudes(bottom);
    if Sum(m) > 0.0 then Some(Rescale(m, Sum(m), -0.5 * gross)) else None
  }

  /** `w.loc[syms] = vals` for a run of consecutive positions starting at `start`. */
  function Overwrite(w: seq<real>, start: nat, vals: seq<real>): (r: seq<real>)
    requires start + |vals| <= |w|
    ensures |r| == |w|
    ensures forall j :: 0 <= j < |w| ==> r[j] == if start <= j < start + |vals| then vals[j - start] else w[j]
  {
    w[..start] + vals + w[start + |vals|..]
  }

  /** The weights before normalisation, for scores in ranked order: zeros, then the
      first `min(kL, n)` positions long, then the last `min(kS, n)` positions short
      (overwriting any long weight there). */
  function Raw(s: seq<real>, kL: nat, kS: nat, gross: real): (w: seq<real>)
    ensures |w| == |s|
  {
    var n := |s|;
    var a := Min(kL, n);
    var b := Min(kS, n);
    var withLongs := Overwrite(Zeros(n), 0, LongWeights(s[..a], gross));
    match ShortWeights(s[n - b..], gross)
    case None => withLongs
    case Some(sw) => Overwrite(withLongs, n - b, sw)
  }

  /** `(w < 0).sum() == 0`. */
  predicate NoNegative(w: seq<real>) {
    forall j :: 0 <= j < |w| ==> w[j] >= 0.0
  }

  lemma AbsSumEmpty(w: seq<real>)
    requires |w| == 0
    ensures AbsSum(w) == 0.0
  {
    assert Abss(w) == [];
  }

  /** The three normalisation branches. */
  function Normalize(w: seq<real>, gross: real, dollarNeutral: bool): (r: seq<real>)
    ensures |r| == |w|
  {
    if !dollarNeutral then
      if AbsSum(w) > 0.0 then Rescale(w, AbsSum(w), gross) else w
    else if AbsSum(w) > 0.0 then
      if NoNegative(w) then Rescale(w, AbsSum(w), gross)
      else
        if |w| == 0 then AbsSumEmpty(w); w
        else
          var c := Demean(w);
          if AbsSum(c) > 0.0 then Rescale(c, AbsSum(c), gross) else c
    else w
  }

  /** The weights of one date for a ranking `order` of its valid entries. */
  function TargetWeights(order: seq<Entry>, longFrac: real, shortFrac: real, gross: real,
                         dollarNeutral: bool): (w: seq<real>)
    ensures |w| == |order|
  {
    var n := |order|;
    Normalize(Raw(ScoresOf(order), BookSize(n, longFrac), BookSize(n, shortFrac), gross), gross, dollarNeutral)
  }

  // ---------------------------------------------------------------------------
  // The per-date body and the loop over dates
  // ---------------------------------------------------------------------------

  /**
   * The body of the `groupby` loop for one date whose valid entries are g:
   * rank, pick the books, assign them in place, normalise.
   */
  method DateWeights(g: seq<Entry>, longFrac: real, shortFrac: real, gross: real, dollarNeutral: bool)
    returns (order: seq<Entry>, w: seq<real>)
    ensures IsRanking(order, g)
    ensures w == TargetWeights(order, longFrac, shortFrac, gross, dollarNeutral)
  {
    order := SortDesc(g);
    var n := |order|;
    var kL := BookSize(n, longFrac);
    var kS := BookSize(n, shortFrac);
    var raw := AssignBooks(ScoresOf(order), kL, kS, gross);
    w := Rebalance(raw, gross, dollarNeutral);
  }

  /** Zero weights, then the long book written over the head and the short book, when
      it is set, over the tail of the ranked scores s: the step-by-step counterpart of `Raw`. */
  method AssignBooks(s: seq<real>, kL: nat, kS: nat, gross: real) returns (w: seq<real>)
    ensures w == Raw(s, kL, kS, gross)
  {
    var n := |s|;
    var a := Min(kL, n);
    var b := Min(kS, n);
    w := Zeros(n);
    w := Overwrite(w, 0, LongWeights(s[..a], gross));
    var shorts := ShortWeights(s[n - b..], gross);
    if shorts.Some? {
      w := Overwrite(w, n - b, shorts.value);
    }
  }

  /** The normalisation branches applied to the assigned weights w: the step-by-step counterpart of `Normalize`. */
  method Rebalance(w: seq<real>, gross: real, dollarNeutral: bool) returns (r: seq<real>)
    ensures r == Normalize(w, gross, dollarNeutral)
  {
    r := w;
    if !dollarNeutral {
      var total := AbsSum(r);
      if total > 0.0 {
        r := Rescale(r, total, gross);
      }
    } else if AbsSum(r) > 0.0 {
      if NoNegative(r) {
        var total := AbsSum(r);
        if total > 0.0 {
          r := Rescale(r, total, gross);
        }
      } else {
        if |r| > 0 {
          r := Demean(r);
          var total := AbsSum(r);
          if total > 0.0 {
            r := Rescale(r, total, gross);
          }
        }
      }
    }
  }

  function RowDates(rows: seq<WeightRow>): (ds: seq<Date>)
    ensures |ds| == |rows|
  {
    seq(|rows|, t requires 0 <= t < |rows| => rows[t].date)
  }

  /** Each output row holds the target weights of a ranking of its date's valid scores. */
  predicate RowsFollow(rows: seq<WeightRow>, orders: seq<seq<Entry>>, scores: seq<ScoreRow>,
                       longFrac: real, shortFrac: real, gross: real, dollarNeutral: bool)
    requires |orders| == |rows|
  {
    forall u :: 0 <= u < |rows| ==>
      IsRanking(orders[u], Valid(scores, rows[u].date))
      && rows[u].symbols == SymbolsOf(orders[u])
      && rows[u].weights == TargetWeights(orders[u], longFrac, shortFrac, gross, dollarNeutral)
  }

  lemma RowsFollowSnoc(rows: seq<WeightRow>, orders: seq<seq<Entry>>, scores: seq<ScoreRow>,
                       longFrac: real, shortFrac: real, gross: real, dollarNeutral: bool,
                       row: WeightRow, order: seq<Entry>)
    requires |orders| == |rows|
    requires RowsFollow(rows, orders, scores, longFrac, shortFrac, gross, dollarNeutral)
    requires IsRanking(order, Valid(scores, row.date)) && row.symbols == SymbolsOf(order)
    requires row.weights == TargetWeights(order, longFrac, shortFrac, gross, dollarNeutral)
    ensures RowsFollow(rows + [row], orders + [order], scores, longFrac, shortFrac, gross, dollarNeutral)
  {
    var rs := rows + [row];
    var os := orders + [order];
    forall u | 0 <= u < |rs|
      ensures IsRanking(os[u], Valid(scores, rs[u].date))
              && rs[u].symbols == SymbolsOf(os[u])
              && rs[u].weights == TargetWeights(os[u], longFrac, shortFrac, gross, dollarNeutral)
    {
      if u < |rows| {
        assert rs[u] == rows[u] && os[u] == orders[u];
      }
    }
  }

  lemma RowDatesSnoc(rows: seq<WeightRow>, row: WeightRow)
    ensures RowDates(rows + [row]) == RowDates(rows) + [row.date]
  {
  }

  /**
   * `build_portfolio_from_scores`. The ghost `orders` records the ranking used on
   * each output row.
   */
  method BuildPortfolio(scores: seq<ScoreRow>, longFrac: real, shortFrac: real, gross: real,
                        dollarNeutral: bool)
    returns (rows: seq<WeightRow>, ghost orders: seq<seq<Entry>>)
    ensures StrictlyIncreasing(RowDates(rows))
    ensures forall d :: d in RowDates(rows) <==> d in DatesOf(scores) && |Valid(scores, d)| >= MIN_NAMES
    ensures |orders| == |rows|
    ensures forall t :: 0 <= t < |rows| ==>
              IsRanking(orders[t], Valid(scores, rows[t].date))
              && rows[t].symbols == SymbolsOf(orders[t])
              && rows[t].weights == TargetWeights(orders[t], longFrac, shortFrac, gross, dollarNeutral)
  {
    var keys := GroupKeys(scores);
    rows := [];
    orders := [];
    for t := 0 to |keys|
      invariant RowDates(rows) == Kept(keys[..t], scores)
      invariant |orders| == |rows|
      invariant RowsFollow(rows, orders, scores, longFrac, shortFrac, gross, dollarNeutral)
    {
      assert keys[..t + 1][..t] == keys[..t];
      var d := keys[t];
      var g := Valid(scores, d);
      if |g| < MIN_NAMES {
        continue;
      }
      var order, w := DateWeights(g, longFrac, shortFrac, gross, dollarNeutral);
      RowDatesSnoc(rows, WeightRow(d, SymbolsOf(order), w));
      RowsFollowSnoc(rows, orders, scores, longFrac, shortFrac, gross, dollarNeutral,
                     WeightRow(d, SymbolsOf(order), w), order);
      rows := rows + [WeightRow(d, SymbolsOf(order), w)];
      orders := orders + [order];
    }
    assert keys[..|keys|] == keys;
  }

  // ---------------------------------------------------------------------------
  // The books before normalisation
  // ---------------------------------------------------------------------------

  lemma {:induction false} SumOnes(n: nat)
    ensures Sum(Ones(n)) == n as real
    decreases n
  {
    if n > 0 {
      assert Ones(n)[1..] == Ones(n - 1);
      SumOnes(n - 1);
    }
  }

  lemma ScaleNonNegative(x: real, total: real, target: real)
    requires x >= 0.0 && total > 0.0 && target >= 0.0
    ensures x / total * target >= 0.0
  {
    assert x / total >= 0.0;
  }

  lemma ScaleBack(r: real, x: real, total: real, target: real)
    requires total != 0.0 && r == x / total * target
    ensures r * total == target * x
  {
  }

  lemma OneOver(n: real, target: real)
    requires n != 0.0
    ensures 1.0 / n * target == target / n
  {
  }

  /** The long book nets to `0.5 * G`. */
  lemma LongBookSum(top: seq<real>, gross: real)
    requires top != []
    ensures Sum(LongWeights(top, gross)) == 0.5 * gross
  {
    var c := ClipLow(top);
    if Sum(c) <= 0.0 {
      SumRescale(Ones(|top|), |top| as real, 0.5 * gross);
      SumOnes(|top|);
      DivSelf(|top| as real, 0.5 * gross);
    } else {
      SumRescale(c, Sum(c), 0.5 * gross);
      DivSelf(Sum(c), 0.5 * gross);
    }
  }

  /** With `G >= 0` every long weight is at least 0. */
  lemma LongBookNonNegative(top: seq<real>, gross: real)
    requires top != [] && gross >= 0.0
    ensures forall j :: 0 <= j < |top| ==> LongWeights(top, gross)[j] >= 0.0
  {
    var c := ClipLow(top);
    var r := LongWeights(top, gross);
    if Sum(c) <= 0.0 {
      forall j | 0 <= j < |top| ensures r[j] >= 0.0 {
        ScaleNonNegative(1.0, |top| as real, 0.5 * gross);
      }
    } else {
      forall j | 0 <= j < |top| ensures r[j] >= 0.0 {
        ScaleNonNegative(c[j], Sum(c), 0.5 * gross);
      }
    }
  }

  /** When the clipped top scores sum to 0 or less the long weights are equal. */
  lemma LongBookEqual(top: seq<real>, gross: real)
    requires top != [] && Sum(ClipLow(top)) <= 0.0
    ensures forall j :: 0 <= j < |top| ==> LongWeights(top, gross)[j] == 0.5 * gross / (|top| as real)
  {
    var n := |top| as real;
    var r := LongWeights(top, gross);
    forall j | 0 <= j < |top| ensures r[j] == 0.5 * gross / n {
      assert r[j] == 1.0 / n * (0.5 * gross);
      OneOver(n, 0.5 * gross);
    }
  }

  /** Each rescaled entry times the total is the target times the entry. */
  lemma RescaleProportional(s: seq<real>, total: real, target: real)
    requires total != 0.0
    ensures forall j :: 0 <= j < |s| ==> Rescale(s, total, target)[j] * total == target * s[j]
  {
    var r := Rescale(s, total, target);
    forall j | 0 <= j < |s| ensures r[j] * total == target * s[j] {
      ScaleBack(r[j], s[j], total, target);
    }
  }

  /** Otherwise the long weights are in proportion to the clipped scores. */
  lemma LongBookProportional(top: seq<real>, gross: real)
    requires top != [] && Sum(ClipLow(top)) > 0.0
    ensures forall j :: 0 <= j < |top| ==>
              LongWeights(top, gross)[j] * Sum(ClipLow(top)) == 0.5 * gross * ClipLow(top)[j]
  {
    RescaleProportional(ClipLow(top), Sum(ClipLow(top)), 0.5 * gross);
  }

  /** The short book is set exactly when some bottom score is negative. */
  lemma ShortBookSetIff(bottom: seq<real>, gross: real)
    ensures ShortWeights(bottom, gross).None? <==> NoNegative(bottom)
  {
    var m := Magnitudes(bottom);
    forall j | 0 <= j < |m| ensures m[j] >= 0.0 && (m[j] == 0.0 <==> bottom[j] >= 0.0) {
    }
    SumNonNegative(m);
    SumNonNegativeZeroIff(m);
  }

  /** A set short book nets to `-0.5 * G`. */
  lemma ShortBookSum(bottom: seq<real>, gross: real)
    requires ShortWeights(bottom, gross).Some?
    ensures Sum(ShortWeights(bottom, gross).value) == -0.5 * gross
  {
    var m := Magnitudes(bottom);
    SumRescale(m, Sum(m), -0.5 * gross);
    DivSelf(Sum(m), -0.5 * gross);
  }

  /** In a set short book every weight is at most 0 when `G >= 0`. */
  lemma ShortBookNonPositive(bottom: seq<real>, gross: real)
    requires ShortWeights(bottom, gross).Some? && gross >= 0.0
    ensures forall j :: 0 <= j < |bottom| ==> ShortWeights(bottom, gross).value[j] <= 0.0
  {
    var m := Magnitudes(bottom);
    var sw := ShortWeights(bottom, gross).value;
    forall j | 0 <= j < |bottom| ensures sw[j] <= 0.0 {
      assert m[j] >= 0.0;
      ScaleNonNegative(m[j], Sum(m), 0.5 * gross);
      assert sw[j] == -(m[j] / Sum(m) * (0.5 * gross));
    }
  }

  /** The short weights are in proportion to the magnitudes of the negative scores. */
  lemma ShortBookProportional(bottom: seq<real>, gross: real)
    requires ShortWeights(bottom, gross).Some?
    ensures forall j :: 0 <= j < |bottom| ==>
              ShortWeights(bottom, gross).value[j] * Sum(Magnitudes(bottom)) == -0.5 * gross * Magnitudes(bottom)[j]
  {
    RescaleProportional(Magnitudes(bottom), Sum(Magnitudes(bottom)), -0.5 * gross);
  }

  /** Where each book lands: the first `min(kL, n)` positions carry the long weights
      except where the short book overwrites them, the last `min(kS, n)` positions carry
      the short weights when that book is set, and every other position is 0. */
  lemma RawLayout(s: seq<real>, kL: nat, kS: nat, gross: real)
    ensures var n, a, b := |s|, Min(kL, |s|), Min(kS, |s|);
            var w, lw, sw := Raw(s, kL, kS, gross), LongWeights(s[..a], gross), ShortWeights(s[n - b..], gross);
            && (forall j :: 0 <= j < a && (sw.None? || j < n - b) ==> w[j] == lw[j])
            && (sw.Some? ==> forall j :: n - b <= j < n ==> w[j] == sw.value[j - (n - b)])
            && (forall j :: a <= j < n && (sw.None? || j < n - b) ==> w[j] == 0.0)
  {
  }

  /** With both books set and disjoint, the raw row nets to exactly zero. */
  lemma RawNetZero(s: seq<real>, kL: nat, kS: nat, gross: real)
    requires s != [] && kL >= 1 && Min(kL, |s|) + Min(kS, |s|) <= |s|
    requires ShortWeights(s[|s| - Min(kS, |s|)..], gross).Some?
    ensures Sum(Raw(s, kL, kS, gross)) == 0.0
  {
    var n, a, b := |s|, Min(kL, |s|), Min(kS, |s|);
    var lw, sw := LongWeights(s[..a], gross), ShortWeights(s[n - b..], gross).value;
    var w := Raw(s, kL, kS, gross);
    RawLayout(s, kL, kS, gross);
    var mid := Zeros(n - a - b);
    assert w == lw + mid + sw;
    SumAppend(lw + mid, sw);
    SumAppend(lw, mid);
    SumZeros(mid);
    LongBookSum(s[..a], gross);
    ShortBookSum(s[n - b..], gross);
  }

  /** With `G >= 0` and no short book, the raw row has no negative weight. */
  lemma RawLongOnly(s: seq<real>, kL: nat, kS: nat, gross: real)
    requires s != [] && kL >= 1 && gross >= 0.0
    requires ShortWeights(s[|s| - Min(kS, |s|)..], gross).None?
    ensures NoNegative(Raw(s, kL, kS, gross))
  {
    RawLayout(s, kL, kS, gross);
    LongBookNonNegative(s[..Min(kL, |s|)], gross);
  }

  // ---------------------------------------------------------------------------
  // The normalisation branches
  // ---------------------------------------------------------------------------

  /** A row with no gross exposure is returned unchanged, with no division. */
  lemma NormalizeZeroRow(w: seq<real>, gross: real, dollarNeutral: bool)
    requires AbsSum(w) == 0.0
    ensures Normalize(w, gross, dollarNeutral) == w
    ensures forall j :: 0 <= j < |w| ==> w[j] == 0.0
  {
    AbsSumZeroIff(w);
  }

  /** Without dollar neutrality, or with it but no negative weight, a row with positive
      gross exposure is rescaled to gross exposure G (for `G >= 0`). */
  lemma NormalizeGross(w: seq<real>, gross: real, dollarNeutral: bool)
    requires AbsSum(w) > 0.0 && gross >= 0.0
    requires !dollarNeutral || NoNegative(w)
    ensures AbsSum(Normalize(w, gross, dollarNeutral)) == gross
    ensures Normalize(w, gross, dollarNeutral) == Rescale(w, AbsSum(w), gross)
  {
    RescaleToGross(w, gross);
  }

  /** Dollar neutral with some negative weight: the row is mean-centred, so it nets to
      exactly zero, and then rescaled to gross exposure G unless centring zeroed it. */
  lemma NormalizeNeutral(w: seq<real>, gross: real)
    requires AbsSum(w) > 0.0 && !NoNegative(w)
    ensures Sum(Normalize(w, gross, true)) == 0.0
    ensures gross >= 0.0 && AbsSum(Demean(w)) > 0.0 ==> AbsSum(Normalize(w, gross, true)) == gross
  {
    var c := Demean(w);
    SumDemean(w);
    if AbsSum(c) > 0.0 {
      SumRescale(c, AbsSum(c), gross);
      if gross >= 0.0 {
        RescaleToGross(c, gross);
      }
    }
  }

  /** Dollar neutral with no negative weight: only rescaled, so the row nets to G, not 0. */
  lemma NormalizeLongOnly(w: seq<real>, gross: real)
    requires AbsSum(w) > 0.0 && NoNegative(w)
    ensures Sum(Normalize(w, gross, true)) == gross
  {
    AbsSumOfNonNegative(w);
    SumRescale(w, AbsSum(w), gross);
    DivSelf(AbsSum(w), gross);
  }

  // ---------------------------------------------------------------------------
  // Whole-row properties
  // ---------------------------------------------------------------------------

  lemma RescaleZeroAt(w: seq<real>, total: real, target: real, j: nat)
    requires total != 0.0 && j < |w| && w[j] == 0.0
    ensures Rescale(w, total, target)[j] == 0.0
  {
  }

  /**
   * With `G >= 0` a symbol in neither book ends at weight 0 in every branch: the
   * mean subtraction of the dollar-neutral branch only runs when the short book is
   * set, and then, the books being disjoint, the raw row already nets to zero.
   */
  lemma NeitherBookStaysZero(order: seq<Entry>, longFrac: real, shortFrac: real, gross: real,
                             dollarNeutral: bool, j: nat)
    requires gross >= 0.0
    requires Min(BookSize(|order|, longFrac), |order|) <= j < |order| - Min(BookSize(|order|, shortFrac), |order|)
    ensures TargetWeights(order, longFrac, shortFrac, gross, dollarNeutral)[j] == 0.0
  {
    var s := ScoresOf(order);
    var n, kL, kS := |order|, BookSize(|order|, longFrac), BookSize(|order|, shortFrac);
    var w := Raw(s, kL, kS, gross);
    RawLayout(s, kL, kS, gross);
    assert w[j] == 0.0;
    if AbsSum(w) > 0.0 {
      if !dollarNeutral || NoNegative(w) {
        RescaleZeroAt(w, AbsSum(w), gross, j);
      } else {
        if ShortWeights(s[n - Min(kS, n)..], gross).None? {
          RawLongOnly(s, kL, kS, gross);
        }
        RawNetZero(s, kL, kS, gross);
        var c := Demean(w);
        assert c[j] == 0.0;
        if AbsSum(c) > 0.0 {
          RescaleZeroAt(c, AbsSum(c), gross, j);
        }
      }
    }
  }

  /** One instance where a symbol in neither book does move: a negative gross leverage
      makes the long book negative, so the row is mean-centred without a short book. */
  lemma NeitherBookMovesWithNegativeLeverage()
    ensures var order := [Entry("a", 5.0), Entry("b", 4.0), Entry("c", 3.0), Entry("d", 2.0), Entry("e", 1.0)];
            TargetWeights(order, 0.2, 0.2, -1.0, true)[2] == -0.125
  {
    var order := [Entry("a", 5.0), Entry("b", 4.0), Entry("c", 3.0), Entry("d", 2.0), Entry("e", 1.0)];
    assert ScoresOf(order) == [5.0, 4.0, 3.0, 2.0, 1.0];
    assert BookSize(5, 0.2) == 1;
    NegativeLeverageRaw();
    NegativeLeverageNormalized();
  }

  lemma NegativeLeverageRaw()
    ensures Raw([5.0, 4.0, 3.0, 2.0, 1.0], 1, 1, -1.0) == [-0.5, 0.0, 0.0, 0.0, 0.0]
  {
    var s := [5.0, 4.0, 3.0, 2.0, 1.0];
    assert s[..1] == [5.0] && s[4..] == [1.0];
    assert ClipLow([5.0]) == [5.0];
    assert LongWeights([5.0], -1.0) == [-0.5];
    assert Magnitudes([1.0]) == [0.0];
    assert ShortWeights([1.0], -1.0) == None;
    assert Overwrite(Zeros(5), 0, [-0.5]) == [-0.5, 0.0, 0.0, 0.0, 0.0];
  }

  lemma NegativeLeverageNormalized()
    ensures Normalize([-0.5, 0.0, 0.0, 0.0, 0.0], -1.0, true)[2] == -0.125
  {
    var w := [-0.5, 0.0, 0.0, 0.0, 0.0];
    assert Abss(w) == [0.5, 0.0, 0.0, 0.0, 0.0];
    assert AbsSum(w) == 0.5;
    assert w[0] < 0.0;
    assert Sum(w) == -0.5;
    var c := [-0.4, 0.1, 0.1, 0.1, 0.1];
    assert Demean(w) == c;
    assert Abss(c) == [0.4, 0.1, 0.1, 0.1, 0.1];
    assert AbsSum(c) == 0.8;
    assert Normalize(w, -1.0, true) == Rescale(c, 0.8, -1.0);
  }

  /** A row with positive gross exposure that nets to zero has a negative weight. */
  lemma NetZeroHasNegative(w: seq<real>)
    requires AbsSum(w) > 0.0 && Sum(w) == 0.0
    ensures !NoNegative(w)
  {
    if NoNegative(w) {
      AbsSumOfNonNegative(w);
    }
  }

  /**
   * A cross-section whose scores are all equal and not negative is not made dollar
   * neutral: there is no short book, so the row is only rescaled and nets to G.
   */
  lemma AllEqualNonNegativeNetsToGross(order: seq<Entry>, c: real, longFrac: real, shortFrac: real, gross: real)
    requires order != [] && c >= 0.0 && gross > 0.0
    requires forall j :: 0 <= j < |order| ==> order[j].score == c
    ensures Sum(TargetWeights(order, longFrac, shortFrac, gross, true)) == gross
  {
    var s := ScoresOf(order);
    var n, kL, kS := |order|, BookSize(|order|, longFrac), BookSize(|order|, shortFrac);
    var a, b := Min(kL, n), Min(kS, n);
    var w := Raw(s, kL, kS, gross);
    ShortBookSetIff(s[n - b..], gross);
    RawLongOnly(s, kL, kS, gross);
    RawLayout(s, kL, kS, gross);
    LongBookSum(s[..a], gross);
    var lw := LongWeights(s[..a], gross);
    assert w == lw + Zeros(n - a);
    SumAppend(lw, Zeros(n - a));
    SumZeros(Zeros(n - a));
    AbsSumOfNonNegative(w);
    NormalizeLongOnly(w, gross);
  }

  /** A cross-section whose scores are all equal and negative, with disjoint books,
      nets to exactly zero. */
  lemma AllEqualNegativeNetsToZero(order: seq<Entry>, c: real, longFrac: real, shortFrac: real, gross: real)
    requires order != [] && c < 0.0 && gross > 0.0
    requires forall j :: 0 <= j < |order| ==> order[j].score == c
    requires Min(BookSize(|order|, longFrac), |order|) + Min(BookSize(|order|, shortFrac), |order|) <= |order|
    ensures Sum(TargetWeights(order, longFrac, shortFrac, gross, true)) == 0.0
  {
    var s := ScoresOf(order);
    var n, kL, kS := |order|, BookSize(|order|, longFrac), BookSize(|order|, shortFrac);
    var a, b := Min(kL, n), Min(kS, n);
    var w := Raw(s, kL, kS, gross);
    ShortBookSetIff(s[n - b..], gross);
    assert s[n - b..][0] < 0.0;
    RawNetZero(s, kL, kS, gross);
    AllEqualLongAtZero(s, kL, kS, gross, c);
    AbsSumZeroIff(w);
    NetZeroHasNegative(w);
    NormalizeNeutral(w, gross);
  }

  /** With all scores equal and negative, the first position keeps a positive long weight. */
  lemma AllEqualLongAtZero(s: seq<real>, kL: nat, kS: nat, gross: real, c: real)
    requires s != [] && kL >= 1 && kS >= 1 && Min(kL, |s|) + Min(kS, |s|) <= |s|
    requires c < 0.0 && gross > 0.0 && forall j :: 0 <= j < |s| ==> s[j] == c
    ensures Raw(s, kL, kS, gross)[0] > 0.0
  {
    var a := Min(kL, |s|);
    var top := s[..a];
    assert forall j :: 0 <= j < a ==> ClipLow(top)[j] == 0.0;
    SumZeros(ClipLow(top));
    LongBookEqual(top, gross);
    RawLayout(s, kL, kS, gross);
    assert Raw(s, kL, kS, gross)[0] == 0.5 * gross / (a as real);
  }
}
