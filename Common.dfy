/**
 * Shared vocabulary of the pipeline: missing cells, error results, and the
 * exact sums over series of reals that every stage uses (pandas' `sum`,
 * `abs().sum()`, and dividing a series by a total and multiplying it back up).
 */
module Common {

  /** A cell that may be missing (pandas' NaN). */
  datatype Option<+T> = None | Some(value: T) {
    /** `fillna(default)` on one cell. */
    function GetOr(default: T): T {
      match this
      case Some(v) => v
      case None => default
    }
  }

  /** A value or the error the source would raise. */
  datatype Result<+T, +E> = Ok(value: T) | Err(error: E)

  /** Trading dates are ordinals; symbols are ticker strings. */
  type Date = int
  type Symbol = string

  predicate StrictlyIncreasing(ds: seq<Date>) {
    forall i, j :: 0 <= i < j < |ds| ==> ds[i] < ds[j]
  }

  /** Appending a date later than every listed one keeps the list strictly increasing. */
  lemma IncreasingSnoc(ds: seq<Date>, x: Date)
    requires StrictlyIncreasing(ds) && forall d :: d in ds ==> d < x
    ensures StrictlyIncreasing(ds + [x])
  {
    var r := ds + [x];
    forall i, j | 0 <= i < j < |r| ensures r[i] < r[j] {
      assert r[i] == ds[i];
      if j == |ds| {
        assert ds[i] in ds;
      } else {
        assert r[j] == ds[j];
      }
    }
  }

  /** Putting a date earlier than every listed one in front keeps the list strictly increasing. */
  lemma IncreasingCons(x: Date, ds: seq<Date>)
    requires StrictlyIncreasing(ds) && forall d :: d in ds ==> x < d
    ensures StrictlyIncreasing([x] + ds)
  {
    var r := [x] + ds;
    forall i, j | 0 <= i < j < |r| ensures r[i] < r[j] {
      assert r[j] == ds[j - 1];
      if i == 0 {
        assert ds[j - 1] in ds;
      } else {
        assert r[i] == ds[i - 1];
      }
    }
  }

  function Abs(x: real): real {
    if x < 0.0 then -x else x
  }

  function Min(a: int, b: int): int {
    if a < b then a else b
  }

  /** Exact sum of a series. */
  function Sum(s: seq<real>): real
    decreases |s|
  {
    if s == [] then 0.0 else s[0] + Sum(s[1..])
  }

  /** Element-wise absolute values (`w.abs()`). */
  function Abss(s: seq<real>): (r: seq<real>)
    ensures |r| == |s|
  {
    seq(|s|, j requires 0 <= j < |s| => Abs(s[j]))
  }

  /** Sum of absolute values (`abs().sum()`: gross exposure, turnover of a difference). */
  function AbsSum(s: seq<real>): (r: real)
    ensures r >= 0.0
  {
    SumNonNegative(Abss(s));
    Sum(Abss(s))
  }

  /** Element-wise `s / total * target`, the shape of every normalisation in the source. */
  function Rescale(s: seq<real>, total: real, target: real): (r: seq<real>)
    requires total != 0.0
    ensures |r| == |s|
  {
    seq(|s|, j requires 0 <= j < |s| => s[j] / total * target)
  }

  function Zeros(n: nat): (r: seq<real>)
    ensures |r| == n && forall j :: 0 <= j < n ==> r[j] == 0.0
  {
    seq(n, j => 0.0)
  }

  lemma {:induction false} SumNonNegative(s: seq<real>)
    requires forall j :: 0 <= j < |s| ==> s[j] >= 0.0
    ensures Sum(s) >= 0.0
    decreases |s|
  {
    if s != [] {
      assert forall j :: 0 <= j < |s| - 1 ==> s[1..][j] == s[j + 1];
      SumNonNegative(s[1..]);
    }
  }

  lemma {:induction false} SumAppend(a: seq<real>, b: seq<real>)
    ensures Sum(a + b) == Sum(a) + Sum(b)
    decreases |a|
  {
    if a == [] {
      assert a + b == b;
    } else {
      assert (a + b)[1..] == a[1..] + b;
      SumAppend(a[1..], b);
    }
  }

  /** A sum of zeros is zero. */
  lemma {:induction false} SumZeros(s: seq<real>)
    requires forall j :: 0 <= j < |s| ==> s[j] == 0.0
    ensures Sum(s) == 0.0 && AbsSum(s) == 0.0
    decreases |s|
  {
    if s != [] {
      assert forall j :: 0 <= j < |s| - 1 ==> s[1..][j] == s[j + 1];
      SumZeros(s[1..]);
    }
    assert Abss(s) == s;
  }

  /** A sum of non-negative terms is zero exactly when every term is zero. */
  lemma {:induction false} SumNonNegativeZeroIff(s: seq<real>)
    requires forall j :: 0 <= j < |s| ==> s[j] >= 0.0
    ensures Sum(s) == 0.0 <==> forall j :: 0 <= j < |s| ==> s[j] == 0.0
    decreases |s|
  {
    if s != [] {
      assert forall j :: 0 <= j < |s| - 1 ==> s[1..][j] == s[j + 1];
      SumNonNegativeZeroIff(s[1..]);
      SumNonNegative(s[1..]);
      if forall j :: 0 <= j < |s| ==> s[j] == 0.0 {
        SumZeros(s);
      }
    }
  }

  /** Gross exposure is zero exactly when every entry is zero. */
  lemma AbsSumZeroIff(s: seq<real>)
    ensures AbsSum(s) == 0.0 <==> forall j :: 0 <= j < |s| ==> s[j] == 0.0
  {
    SumNonNegativeZeroIff(Abss(s));
    assert forall j :: 0 <= j < |s| ==> (Abss(s)[j] == 0.0 <==> s[j] == 0.0);
  }

  /** For a series with no negative entry, gross exposure equals net exposure. */
  lemma AbsSumOfNonNegative(s: seq<real>)
    requires forall j :: 0 <= j < |s| ==> s[j] >= 0.0
    ensures AbsSum(s) == Sum(s)
  {
    assert Abss(s) == s;
  }

  /** Dividing by a total and multiplying back up scales the sum the same way. */
  lemma {:induction false} SumRescale(s: seq<real>, total: real, target: real)
    requires total != 0.0
    ensures Sum(Rescale(s, total, target)) == Sum(s) / total * target
    decreases |s|
  {
    if s != [] {
      var r := Rescale(s, total, target);
      RescaleTail(s, total, target);
      SumRescale(s[1..], total, target);
      calc {
        Sum(r);
        r[0] + Sum(r[1..]);
        s[0] / total * target + Sum(s[1..]) / total * target;
        { DistributeDivMul(s[0], Sum(s[1..]), total, target); }
        (s[0] + Sum(s[1..])) / total * target;
      }
    }
  }

  lemma RescaleTail(s: seq<real>, total: real, target: real)
    requires total != 0.0 && s != []
    ensures Rescale(s, total, target)[1..] == Rescale(s[1..], total, target)
  {
    var r := Rescale(s, total, target);
    var t := Rescale(s[1..], total, target);
    forall j | 0 <= j < |s| - 1 ensures r[1..][j] == t[j] {
      assert r[1..][j] == r[j + 1] == s[j + 1] / total * target;
      assert t[j] == s[1..][j] / total * target;
    }
  }

  lemma DistributeDivMul(x: real, y: real, total: real, target: real)
    requires total != 0.0
    ensures x / total * target + y / total * target == (x + y) / total * target
  {
    assert x / total + y / total == (x + y) / total;
  }

  lemma AbsDivMul(x: real, total: real, target: real)
    requires total > 0.0 && target >= 0.0
    ensures Abs(x / total * target) == Abs(x) / total * target
  {
    if x >= 0.0 {
      assert x / total >= 0.0;
      assert x / total * target >= 0.0;
    } else {
      assert x / total < 0.0;
      assert x / total * target <= 0.0;
      assert -(x / total * target) == (-x) / total * target;
    }
  }

  lemma AbssRescale(s: seq<real>, total: real, target: real)
    requires total > 0.0 && target >= 0.0
    ensures Abss(Rescale(s, total, target)) == Rescale(Abss(s), total, target)
  {
    var r := Rescale(s, total, target);
    forall j | 0 <= j < |s| ensures Abss(r)[j] == Rescale(Abss(s), total, target)[j] {
      AbsDivMul(s[j], total, target);
    }
  }

  /** Rescaling by a positive total and a non-negative target scales gross exposure the same way. */
  lemma AbsSumRescale(s: seq<real>, total: real, target: real)
    requires total > 0.0 && target >= 0.0
    ensures AbsSum(Rescale(s, total, target)) == AbsSum(s) / total * target
  {
    AbssRescale(s, total, target);
    SumRescale(Abss(s), total, target);
  }

  /** Normalising a non-zero series by its own gross exposure gives gross exposure `target`. */
  lemma RescaleToGross(s: seq<real>, target: real)
    requires AbsSum(s) > 0.0 && target >= 0.0
    ensures AbsSum(Rescale(s, AbsSum(s), target)) == target
  {
    var g := AbsSum(s);
    AbsSumRescale(s, g, target);
    DivSelf(g, target);
  }

  lemma DivSelf(x: real, y: real)
    requires x != 0.0
    ensures x / x * y == y
  {
  }

  /** Sum of the series after subtracting its mean (`w - w.mean()`). */
  function Demean(s: seq<real>): (r: seq<real>)
    requires |s| > 0
    ensures |r| == |s|
  {
    var mean := Sum(s) / (|s| as real);
    seq(|s|, j requires 0 <= j < |s| => s[j] - mean)
  }

  /** Subtracting c from every entry lowers the sum by |s| * c. */
  lemma {:induction false} SumShift(s: seq<real>, c: real)
    ensures Sum(seq(|s|, j requires 0 <= j < |s| => s[j] - c)) == Sum(s) - (|s| as real) * c
    decreases |s|
  {
    var r := seq(|s|, j requires 0 <= j < |s| => s[j] - c);
    if s != [] {
      assert r[1..] == seq(|s[1..]|, j requires 0 <= j < |s[1..]| => s[1..][j] - c);
      SumShift(s[1..], c);
    }
  }

  /** A mean-centred series nets to exactly zero. */
  lemma SumDemean(s: seq<real>)
    requires |s| > 0
    ensures Sum(Demean(s)) == 0.0
  {
    var mean := Sum(s) / (|s| as real);
    SumShift(s, mean);
    assert Demean(s) == seq(|s|, j requires 0 <= j < |s| => s[j] - mean);
  }
}
