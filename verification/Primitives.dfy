/**
 * The changepoint locator and the correlation ranking (packages/analysis/src/primitives.ts), over the
 * reals. The square root is a parameter; IsRoot is all that is asked of it.
 */
module Primitives {
  import opened Wrappers
  import opened Reals

  function Mean(values: seq<real>): real
    requires values != []
  {
    Sum(values) / |values| as real
  }

  /** The squared distances from mu. */
  function Squares(values: seq<real>, mu: real): (r: seq<real>)
    ensures |r| == |values|
  {
    if values == [] then []
    else
      var d := values[|values| - 1] - mu;
      Squares(values[..|values| - 1], mu) + [d * d]
  }

  function SquaredDeviations(values: seq<real>, mu: real): real {
    Sum(Squares(values, mu))
  }

  function StdDev(sqrt: real -> real, values: seq<real>, mu: real): real
    requires values != []
  {
    sqrt(SquaredDeviations(values, mu) / |values| as real)
  }

  function Abs(x: real): (r: real)
    ensures 0.0 <= r && (r == x || r == -x)
  {
    if x < 0.0 then -x else x
  }

  /* ---------------- changepoint ---------------- */

  datatype Significance = Infinite | Finite(value: real) {
    predicate Exceeds(other: Significance) {
      if other.Infinite? then false else Infinite? || other.value < value
    }

    predicate Reaches(floor: real) {
      Infinite? || floor <= value
    }
  }

  datatype Changepoint = Changepoint(index: nat, magnitude: real, significance: Significance)

  /** A split leaves at least three of the n points on each side. */
  predicate Splits(n: nat, split: int) {
    3 <= split <= n - 3
  }

  function Ratio(magnitude: real, se: real): Significance {
    if se == 0.0 then Infinite else Finite(Abs(magnitude) / se)
  }

  function Magnitude(series: seq<real>, split: int): real
    requires Splits(|series|, split)
  {
    Mean(series[split..]) - Mean(series[..split])
  }

  /** The variance as the code computes it, by squaring the standard deviation. */
  function Variance(sqrt: real -> real, values: seq<real>): real
    requires values != []
  {
    var s := StdDev(sqrt, values, Mean(values));
    s * s
  }

  /** The standard error of the difference of the two means. */
  function StandardError(sqrt: real -> real, before: seq<real>, after: seq<real>): real
    requires before != [] && after != []
  {
    sqrt(Variance(sqrt, before) / |before| as real + Variance(sqrt, after) / |after| as real)
  }

  /** A measure of noise for the points before and after a split; the code's is Welch(sqrt). */
  type Noise = (seq<real>, seq<real>) -> real

  function Welch(sqrt: real -> real): Noise {
    (before: seq<real>, after: seq<real>) =>
      if before == [] || after == [] then 0.0 else StandardError(sqrt, before, after)
  }

  function SplitAt(noise: Noise, series: seq<real>, split: int): Changepoint
    requires Splits(|series|, split)
  {
    var magnitude := Magnitude(series, split);
    Changepoint(split, magnitude, Ratio(magnitude, noise(series[..split], series[split..])))
  }

  /** What there is to say about each split of a series; a place that is no split has no magnitude. */
  function At(noise: Noise, series: seq<real>): int -> Changepoint {
    (split: int) => if Splits(|series|, split) then SplitAt(noise, series, split) else Changepoint(0, 0.0, Infinite)
  }

  predicate Qualifies(at: int -> Changepoint, n: nat, floor: real, split: int) {
    Splits(n, split) && at(split).magnitude != 0.0 && at(split).significance.Reaches(floor)
  }

  /** No earlier qualifying split is as significant, and no later one is more so. */
  predicate Beats(c: Changepoint, split: int, other: Significance) {
    if split < c.index then c.significance.Exceeds(other) else !other.Exceeds(c.significance)
  }

  /** The earliest split of maximal significance among the qualifying ones below end; null if there is none. */
  ghost predicate IsBest(at: int -> Changepoint, n: nat, floor: real, end: int, r: Option<Changepoint>) {
    match r
    case None => forall split | split < end :: !Qualifies(at, n, floor, split)
    case Some(c) =>
      && c.index < end && Qualifies(at, n, floor, c.index) && c == at(c.index)
      && forall split | split < end && Qualifies(at, n, floor, split) :: Beats(c, split, at(split).significance)
  }

  /** The best so far, after one more split. */
  function Improved(best: Option<Changepoint>, c: Changepoint, floor: real): Option<Changepoint> {
    if c.magnitude != 0.0 && c.significance.Reaches(floor)
       && (best.None? || c.significance.Exceeds(best.value.significance))
    then Some(c) else best
  }

  lemma {:induction false} ImprovedIsBest(at: int -> Changepoint, n: nat, floor: real, split: int,
                                          best: Option<Changepoint>)
    requires Splits(n, split) && at(split).index == split && IsBest(at, n, floor, split, best)
    ensures IsBest(at, n, floor, split + 1, Improved(best, at(split), floor))
  {
  }

  method DetectChangepoint(sqrt: real -> real, series: seq<real>, minSignificance: Option<real>)
    returns (best: Option<Changepoint>)
    ensures var floor := if minSignificance.Some? then minSignificance.value else 3.0;
            IsBest(At(Welch(sqrt), series), |series|, floor, |series|, best)
  {
    var floor := if minSignificance.Some? then minSignificance.value else 3.0;
    best := None;
    var split := 3;
    while split <= |series| - 3
      invariant 3 <= split
      invariant IsBest(At(Welch(sqrt), series), |series|, floor, split, best)
    {
      ImprovedIsBest(At(Welch(sqrt), series), |series|, floor, split, best);
      var c := EvaluateSplit(sqrt, series, split);
      if c.magnitude != 0.0 && c.significance.Reaches(floor)
         && (best.None? || c.significance.Exceeds(best.value.significance)) {
        best := Some(c);
      }
      split := split + 1;
    }
    NothingBeyond(At(Welch(sqrt), series), |series|, floor, split, best);
  }

  method EvaluateSplit(sqrt: real -> real, series: seq<real>, split: int) returns (c: Changepoint)
    requires Splits(|series|, split)
    ensures c == At(Welch(sqrt), series)(split)
  {
    var before, after := series[..split], series[split..];
    var magnitude := Mean(after) - Mean(before);
    var varB, varA := Variance(sqrt, before), Variance(sqrt, after);
    var se := sqrt(varB / |before| as real + varA / |after| as real);
    c := Changepoint(split, magnitude, if se == 0.0 then Infinite else Finite(Abs(magnitude) / se));
  }

  lemma {:induction false} NothingBeyond(at: int -> Changepoint, n: nat, floor: real, end: int,
                                         best: Option<Changepoint>)
    requires n - 3 < end && 3 <= end && IsBest(at, n, floor, end, best)
    ensures IsBest(at, n, floor, n, best)
  {
  }

  /** The specification leaves no choice. */
  lemma {:induction false} BestIsUnique(at: int -> Changepoint, n: nat, floor: real,
                                        r: Option<Changepoint>, s: Option<Changepoint>)
    requires IsBest(at, n, floor, n, r) && IsBest(at, n, floor, n, s)
    ensures r == s
  {
    if r.Some? && s.Some? {
      assert Beats(r.value, s.value.index, at(s.value.index).significance);
      assert Beats(s.value, r.value.index, at(r.value.index).significance);
    }
  }

  /* ---------------- shifting and scaling a series ---------------- */

  ghost predicate Moved(x: real, x': real, k: real, c: real) {
    x' == k * x + c
  }

  /** The same series in other units: every value scaled by k and shifted by c. */
  ghost predicate AffineImage(v: seq<real>, v': seq<real>, k: real, c: real) {
    |v| == |v'| && forall i | 0 <= i < |v| :: Moved(v[i], v'[i], k, c)
  }

  ghost predicate SumsMoved(sum: real, sum': real, k: real, c: real, n: int) {
    sum' == k * sum + c * n as real
  }

  lemma SumStep(k: real, c: real, x: real, x': real, y: real, y': real, n: int)
    requires SumsMoved(x, x', k, c, n) && Moved(y, y', k, c)
    ensures SumsMoved(x + y, x' + y', k, c, n + 1)
  {
    SumStepReal(k, c, x, x', y, y', n as real);
  }

  lemma SumStepReal(k: real, c: real, x: real, x': real, y: real, y': real, n: real)
    requires x' == k * x + c * n && y' == k * y + c
    ensures x' + y' == k * (x + y) + c * (n + 1.0)
  {
  }

  lemma {:induction false} SumOneMore(front: seq<real>, y: real)
    ensures Sum(front + [y]) == Sum(front) + y
  {
    assert (front + [y])[..|front|] == front;
  }

  lemma {:induction false} SumMovesOneMore(front: seq<real>, front': seq<real>, y: real, y': real, k: real, c: real)
    requires |front| == |front'| && SumsMoved(Sum(front), Sum(front'), k, c, |front|) && Moved(y, y', k, c)
    ensures SumsMoved(Sum(front + [y]), Sum(front' + [y']), k, c, |front| + 1)
  {
    SumOneMore(front, y);
    SumOneMore(front', y');
    SumStep(k, c, Sum(front), Sum(front'), y, y', |front|);
  }

  lemma {:induction false} SumMoves(v: seq<real>, v': seq<real>, k: real, c: real)
    requires AffineImage(v, v', k, c)
    ensures SumsMoved(Sum(v), Sum(v'), k, c, |v|)
  {
    if v != [] {
      var n := |v| - 1;
      SumMoves(v[..n], v'[..n], k, c);
      SumMovesOneMore(v[..n], v'[..n], v[n], v'[n], k, c);
      assert v == v[..n] + [v[n]] && v' == v'[..n] + [v'[n]];
    }
  }

  lemma AffineShare(k: real, c: real, sum: real, sum': real, n: real)
    requires 0.0 < n && sum' == k * sum + c * n
    ensures Moved(sum / n, sum' / n, k, c)
  {
    Quotient(sum, n);
    Quotient(sum', n);
    var mean := sum / n;
    assert (k * mean + c) * n == k * (mean * n) + c * n;
    SameByProduct(sum' / n, k * mean + c, n);
  }

  lemma {:induction false} MeanMoves(v: seq<real>, v': seq<real>, k: real, c: real)
    requires AffineImage(v, v', k, c) && v != []
    ensures Moved(Mean(v), Mean(v'), k, c)
  {
    SumMoves(v, v', k, c);
    AffineShare(k, c, Sum(v), Sum(v'), |v| as real);
  }

  lemma DistanceMoves(x: real, x': real, mu: real, mu': real, k: real, c: real)
    requires Moved(x, x', k, c) && Moved(mu, mu', k, c)
    ensures x' - mu' == k * (x - mu)
  {
  }

  lemma SquareMoves(d: real, d': real, k: real, kk: real)
    requires d' == k * d && kk == k * k
    ensures Moved(d * d, d' * d', kk, 0.0)
  {
    assert k * d * (k * d) == k * k * (d * d);
  }

  lemma {:induction false} SquaresAt(values: seq<real>, mu: real, i: nat) returns (d: real)
    requires i < |values|
    ensures d == values[i] - mu && Squares(values, mu)[i] == d * d
  {
    d := values[i] - mu;
    if i < |values| - 1 {
      var same := SquaresAt(values[..|values| - 1], mu, i);
    }
  }

  lemma {:induction false} SquaresMoveAt(v: seq<real>, v': seq<real>, mu: real, mu': real, k: real, c: real, kk: real,
                                         i: nat)
    requires |v| == |v'| && i < |v| && Moved(v[i], v'[i], k, c) && Moved(mu, mu', k, c) && kk == k * k
    ensures Moved(Squares(v, mu)[i], Squares(v', mu')[i], kk, 0.0)
  {
    var d := SquaresAt(v, mu, i);
    var d' := SquaresAt(v', mu', i);
    DistanceMoves(v[i], v'[i], mu, mu', k, c);
    SquareMoves(d, d', k, kk);
  }

  lemma {:induction false} DeviationsMove(v: seq<real>, v': seq<real>, mu: real, mu': real, k: real, c: real, kk: real)
    requires AffineImage(v, v', k, c) && Moved(mu, mu', k, c) && kk == k * k
    ensures Moved(SquaredDeviations(v, mu), SquaredDeviations(v', mu'), kk, 0.0)
  {
    var w, w' := Squares(v, mu), Squares(v', mu');
    forall i | 0 <= i < |w|
      ensures Moved(w[i], w'[i], kk, 0.0)
    {
      SquaresMoveAt(v, v', mu, mu', k, c, kk, i);
    }
    SumMoves(w, w', kk, 0.0);
  }

  lemma {:induction false} DeviationsNotNegative(values: seq<real>, mu: real)
    ensures 0.0 <= SquaredDeviations(values, mu)
  {
    if values != [] {
      var n := |values| - 1;
      DeviationsNotNegative(values[..n], mu);
      SquareIsNotNegative(values[n] - mu);
      assert Squares(values, mu)[..n] == Squares(values[..n], mu);
    }
  }

  lemma ShareNotNegative(x: real, n: real)
    requires 0.0 <= x && 0.0 < n
    ensures 0.0 <= x / n
  {
  }

  lemma {:induction false} VarianceIs(sqrt: real -> real, values: seq<real>)
    requires IsRoot(sqrt) && values != []
    ensures Variance(sqrt, values) == SquaredDeviations(values, Mean(values)) / |values| as real
    ensures 0.0 <= Variance(sqrt, values)
  {
    DeviationsNotNegative(values, Mean(values));
    ShareNotNegative(SquaredDeviations(values, Mean(values)), |values| as real);
  }

  lemma {:induction false} VarianceMoves(sqrt: real -> real, v: seq<real>, v': seq<real>, k: real, c: real, kk: real)
    requires IsRoot(sqrt) && AffineImage(v, v', k, c) && v != [] && kk == k * k
    ensures Moved(Variance(sqrt, v), Variance(sqrt, v'), kk, 0.0) && 0.0 <= Variance(sqrt, v)
  {
    VarianceIs(sqrt, v);
    VarianceIs(sqrt, v');
    MeanMoves(v, v', k, c);
    DeviationsMove(v, v', Mean(v), Mean(v'), k, c, kk);
    AffineShare(kk, 0.0, SquaredDeviations(v, Mean(v)), SquaredDeviations(v', Mean(v')), |v| as real);
  }

  /** sqrt(k * k * x) is k * sqrt(x). */
  lemma RootMoves(sqrt: real -> real, x: real, x': real, k: real, kk: real)
    requires IsRoot(sqrt) && 0.0 < k && kk == k * k && 0.0 <= x && Moved(x, x', kk, 0.0)
    ensures Moved(sqrt(x), sqrt(x'), k, 0.0)
  {
    SquareIsNotNegative(k);
    ProductMonotone(0.0, x, kk);
    var r := sqrt(x);
    SameRoot(sqrt(x'), k * r, x', r, x, k, kk);
  }

  lemma SameRoot(a: real, b: real, x': real, r: real, x: real, k: real, kk: real)
    requires 0.0 <= a && a * a == x' && x' == kk * x
    requires 0.0 <= r && r * r == x && b == k * r && 0.0 < k && kk == k * k
    ensures a == b
  {
    ProductMonotone(0.0, r, k);
    assert b * b == k * k * (r * r);
    if a < b {
      SquaresDiffer(a, b);
    } else if b < a {
      SquaresDiffer(b, a);
    }
  }

  lemma SharesMove(b: real, b': real, a: real, a': real, n: real, m: real, kk: real)
    requires 0.0 < n && 0.0 < m && Moved(b, b', kk, 0.0) && Moved(a, a', kk, 0.0)
    ensures Moved(b / n + a / m, b' / n + a' / m, kk, 0.0)
  {
    AffineShare(kk, 0.0, b, b', n);
    AffineShare(kk, 0.0, a, a', m);
    Distributes(kk, b / n, a / m);
  }

  lemma Distributes(k: real, x: real, y: real)
    ensures k * x + k * y == k * (x + y)
  {
  }

  lemma {:induction false} ErrorMoves(sqrt: real -> real, b: seq<real>, b': seq<real>, a: seq<real>, a': seq<real>,
                                      k: real, c: real)
    requires IsRoot(sqrt) && 0.0 < k && b != [] && a != []
    requires AffineImage(b, b', k, c) && AffineImage(a, a', k, c)
    ensures Moved(StandardError(sqrt, b, a), StandardError(sqrt, b', a'), k, 0.0)
    ensures 0.0 <= StandardError(sqrt, b, a)
  {
    var kk := k * k;
    var n, m := |b| as real, |a| as real;
    VarianceMoves(sqrt, b, b', k, c, kk);
    VarianceMoves(sqrt, a, a', k, c, kk);
    ShareNotNegative(Variance(sqrt, b), n);
    ShareNotNegative(Variance(sqrt, a), m);
    SharesMove(Variance(sqrt, b), Variance(sqrt, b'), Variance(sqrt, a), Variance(sqrt, a'), n, m, kk);
    RootMoves(sqrt, Variance(sqrt, b) / n + Variance(sqrt, a) / m,
              Variance(sqrt, b') / n + Variance(sqrt, a') / m, k, kk);
  }

  lemma AbsMoves(x: real, x': real, k: real)
    requires 0.0 < k && Moved(x, x', k, 0.0)
    ensures Moved(Abs(x), Abs(x'), k, 0.0) && (x' == 0.0 <==> x == 0.0)
  {
    if x < 0.0 {
      ProductStrict(x, 0.0, k);
    } else if 0.0 < x {
      ProductStrict(0.0, x, k);
    }
  }

  lemma ShareIsSame(x: real, x': real, y: real, y': real, k: real)
    requires 0.0 < k && 0.0 < y && 0.0 < y' && Moved(x, x', k, 0.0) && Moved(y, y', k, 0.0)
    ensures x' / y' == x / y
  {
    Quotient(x, y);
    Quotient(x', y');
    var q := x / y;
    assert q * y' == k * (q * y);
    SameByProduct(x' / y', q, y');
  }

  lemma RatioIsSame(x: real, x': real, se: real, se': real, k: real)
    requires 0.0 < k && 0.0 <= se && Moved(x, x', k, 0.0) && Moved(se, se', k, 0.0)
    ensures Ratio(x', se') == Ratio(x, se)
  {
    AbsMoves(se, se', k);
    AbsMoves(x, x', k);
    if 0.0 < se {
      ShareIsSame(Abs(x), Abs(x'), se, se', k);
    }
  }

  function Rescaled(c: Changepoint, k: real): Changepoint {
    c.(magnitude := k * c.magnitude)
  }

  lemma DifferenceMoves(x: real, x': real, y: real, y': real, k: real, c: real)
    requires Moved(x, x', k, c) && Moved(y, y', k, c)
    ensures Moved(x - y, x' - y', k, 0.0)
  {
    Distributes(k, x, -y);
  }

  lemma {:induction false} MagnitudeMoves(series: seq<real>, series': seq<real>, k: real, c: real, split: int)
    requires 0.0 < k && Splits(|series|, split) && AffineImage(series, series', k, c)
    ensures Moved(Magnitude(series, split), Magnitude(series', split), k, 0.0)
  {
    var b, b', a, a' := series[..split], series'[..split], series[split..], series'[split..];
    MeanMoves(b, b', k, c);
    MeanMoves(a, a', k, c);
    DifferenceMoves(Mean(a), Mean(a'), Mean(b), Mean(b'), k, c);
  }

  lemma {:induction false} SplitMoves(noise: Noise, series: seq<real>, series': seq<real>, k: real, c: real, split: int)
    requires 0.0 < k && Splits(|series|, split) && AffineImage(series, series', k, c)
    requires var se := noise(series[..split], series[split..]);
             0.0 <= se && Moved(se, noise(series'[..split], series'[split..]), k, 0.0)
    ensures SplitAt(noise, series', split) == Rescaled(SplitAt(noise, series, split), k)
  {
    MagnitudeMoves(series, series', k, c, split);
    RatioIsSame(Magnitude(series, split), Magnitude(series', split),
                noise(series[..split], series[split..]), noise(series'[..split], series'[split..]), k);
  }

  lemma {:induction false} WelchMoves(sqrt: real -> real, series: seq<real>, series': seq<real>, k: real, c: real,
                                      split: int)
    requires IsRoot(sqrt) && 0.0 < k && Splits(|series|, split) && AffineImage(series, series', k, c)
    ensures var se := Welch(sqrt)(series[..split], series[split..]);
            0.0 <= se && Moved(se, Welch(sqrt)(series'[..split], series'[split..]), k, 0.0)
  {
    ErrorMoves(sqrt, series[..split], series'[..split], series[split..], series'[split..], k, c);
  }

  lemma {:induction false} AtMoves(noise: Noise, series: seq<real>, series': seq<real>, k: real, c: real, split: int)
    requires 0.0 < k && AffineImage(series, series', k, c) && Splits(|series|, split)
    requires var se := noise(series[..split], series[split..]);
             0.0 <= se && Moved(se, noise(series'[..split], series'[split..]), k, 0.0)
    ensures At(noise, series')(split) == Rescaled(At(noise, series)(split), k)
  {
    SplitMoves(noise, series, series', k, c, split);
  }

  /** The best split is the same where every split is only rescaled. */
  lemma {:induction false} BestMoves(at: int -> Changepoint, at': int -> Changepoint, n: nat, floor: real, k: real,
                                     r: Option<Changepoint>)
    requires 0.0 < k && IsBest(at, n, floor, n, r)
    requires forall split | Splits(n, split) :: at'(split) == Rescaled(at(split), k)
    ensures IsBest(at', n, floor, n, if r.Some? then Some(Rescaled(r.value, k)) else None)
  {
    forall split | Splits(n, split)
      ensures Qualifies(at', n, floor, split) <==> Qualifies(at, n, floor, split)
    {
      AbsMoves(at(split).magnitude, at'(split).magnitude, k);
    }
  }

  /**
   * Shifting the series by any amount and scaling it by any positive factor keeps whether there is a
   * changepoint, its index and its significance, and scales its magnitude.
   */
  lemma {:induction false} ChangepointFollowsUnits(sqrt: real -> real, series: seq<real>, series': seq<real>,
                                                   floor: real, k: real, c: real, r: Option<Changepoint>)
    requires IsRoot(sqrt) && 0.0 < k && AffineImage(series, series', k, c)
    requires IsBest(At(Welch(sqrt), series), |series|, floor, |series|, r)
    ensures IsBest(At(Welch(sqrt), series'), |series'|, floor, |series'|,
                   if r.Some? then Some(Rescaled(r.value, k)) else None)
  {
    forall split | Splits(|series|, split)
      ensures At(Welch(sqrt), series')(split) == Rescaled(At(Welch(sqrt), series)(split), k)
    {
      WelchMoves(sqrt, series, series', k, c, split);
      AtMoves(Welch(sqrt), series, series', k, c, split);
    }
    BestMoves(At(Welch(sqrt), series), At(Welch(sqrt), series'), |series|, floor, k, r);
  }

  /* ---------------- a clean level shift ---------------- */

  function Spread(values: seq<real>): real
    requires values != []
  {
    SquaredDeviations(values, Mean(values))
  }

  predicate Constant(values: seq<real>) {
    forall i | 0 <= i < |values| :: values[i] == values[0]
  }

  lemma {:induction false} ZeroSumExactly(values: seq<real>)
    requires forall i | 0 <= i < |values| :: 0.0 <= values[i]
    ensures 0.0 <= Sum(values) && (Sum(values) == 0.0 <==> forall i | 0 <= i < |values| :: values[i] == 0.0)
  {
    if values != [] {
      ZeroSumExactly(values[..|values| - 1]);
    }
  }

  lemma {:induction false} ZeroDeviationExactly(values: seq<real>, mu: real)
    ensures SquaredDeviations(values, mu) == 0.0 <==> forall i | 0 <= i < |values| :: values[i] == mu
  {
    var w := Squares(values, mu);
    forall i | 0 <= i < |w|
      ensures 0.0 <= w[i] && (w[i] == 0.0 <==> values[i] == mu)
    {
      var d := SquaresAt(values, mu, i);
      ZeroSquare(d);
    }
    ZeroSumExactly(w);
  }

  lemma ZeroSquare(d: real)
    ensures 0.0 <= d * d && (d * d == 0.0 <==> d == 0.0)
  {
    SquareIsNotNegative(d);
    if d < 0.0 {
      SquaresDiffer(0.0, -d);
    } else if 0.0 < d {
      SquaresDiffer(0.0, d);
    }
  }

  lemma {:induction false} ConstantSum(values: seq<real>, x: real)
    requires forall i | 0 <= i < |values| :: values[i] == x
    ensures Sum(values) == x * |values| as real
  {
    if values != [] {
      ConstantSum(values[..|values| - 1], x);
    }
  }

  lemma {:induction false} ConstantSpread(values: seq<real>)
    requires values != []
    ensures 0.0 <= Spread(values) && (Spread(values) == 0.0 <==> Constant(values))
  {
    DeviationsNotNegative(values, Mean(values));
    ZeroDeviationExactly(values, Mean(values));
    if Constant(values) {
      ConstantSum(values, values[0]);
      Quotient(Sum(values), |values| as real);
      SameByProduct(Mean(values), values[0], |values| as real);
    }
  }

  lemma ZeroProduct(x: real, y: real)
    requires 0.0 <= x && 0.0 <= y
    ensures 0.0 <= x * y && (x * y == 0.0 <==> x == 0.0 || y == 0.0)
  {
    if 0.0 < x && 0.0 < y {
      var z := Times(x, y);
    }
  }

  lemma {:induction false} ConstantMean(values: seq<real>, x: real)
    requires values != [] && forall i | 0 <= i < |values| :: values[i] == x
    ensures Mean(values) == x
  {
    ConstantSum(values, x);
    Quotient(Sum(values), |values| as real);
    SameByProduct(Mean(values), x, |values| as real);
  }

  lemma ZeroShare(x: real, n: real)
    requires 0.0 <= x && 0.0 < n
    ensures 0.0 <= x / n && (x / n == 0.0 <==> x == 0.0)
  {
    Quotient(x, n);
    ShareNotNegative(x, n);
  }

  /** A part has no variance exactly if it is constant. */
  lemma {:induction false} VarianceExactly(sqrt: real -> real, values: seq<real>)
    requires IsRoot(sqrt) && values != []
    ensures 0.0 <= Variance(sqrt, values) && (Variance(sqrt, values) == 0.0 <==> Constant(values))
  {
    VarianceIs(sqrt, values);
    ConstantSpread(values);
    ZeroShare(SquaredDeviations(values, Mean(values)), |values| as real);
  }

  lemma RootExactly(sqrt: real -> real, x: real)
    requires IsRoot(sqrt) && 0.0 <= x
    ensures 0.0 <= sqrt(x) && (sqrt(x) == 0.0 <==> x == 0.0)
  {
    ZeroSquare(sqrt(x));
  }

  /** There is no noise exactly if both sides are constant. */
  lemma {:induction false} NoiseExactly(sqrt: real -> real, before: seq<real>, after: seq<real>)
    requires IsRoot(sqrt) && before != [] && after != []
    ensures 0.0 <= StandardError(sqrt, before, after)
    ensures StandardError(sqrt, before, after) == 0.0 <==> Constant(before) && Constant(after)
  {
    VarianceExactly(sqrt, before);
    VarianceExactly(sqrt, after);
    ZeroShare(Variance(sqrt, before), |before| as real);
    ZeroShare(Variance(sqrt, after), |after| as real);
    RootExactly(sqrt, Variance(sqrt, before) / |before| as real + Variance(sqrt, after) / |after| as real);
  }

  /** Welch's error: its square is the sum of each side's mean squared deviation over that side's size. */
  lemma {:induction false} WelchIs(sqrt: real -> real, before: seq<real>, after: seq<real>)
    requires IsRoot(sqrt) && before != [] && after != []
    ensures var (se, b, a) := (Welch(sqrt)(before, after), |before| as real, |after| as real);
            && 0.0 <= se
            && se * se == SquaredDeviations(before, Sum(before) / b) / b / b
                          + SquaredDeviations(after, Sum(after) / a) / a / a
  {
    VarianceIs(sqrt, before);
    VarianceIs(sqrt, after);
    ShareNotNegative(Variance(sqrt, before), |before| as real);
    ShareNotNegative(Variance(sqrt, after), |after| as real);
  }

  /** The series stands at x, and from place s on at y. */
  ghost predicate Steps(series: seq<real>, s: nat, x: real, y: real) {
    Splits(|series|, s) && forall i | 0 <= i < |series| :: series[i] == if i < s then x else y
  }

  lemma {:induction false} AtTheStep(sqrt: real -> real, series: seq<real>, s: nat, x: real, y: real)
    requires IsRoot(sqrt) && Steps(series, s, x, y)
    ensures At(Welch(sqrt), series)(s) == Changepoint(s, y - x, Infinite)
  {
    ConstantMean(series[..s], x);
    ConstantMean(series[s..], y);
    NoiseExactly(sqrt, series[..s], series[s..]);
  }

  lemma {:induction false} BeforeTheStep(sqrt: real -> real, series: seq<real>, s: nat, x: real, y: real, split: int)
    requires IsRoot(sqrt) && Steps(series, s, x, y) && x != y && 3 <= split < s
    ensures At(Welch(sqrt), series)(split).significance.Finite?
  {
    var after := series[split..];
    assert after[0] == x && after[|after| - 1] == y;
    NoiseExactly(sqrt, series[..split], after);
  }

  /** A clean step is found where it is, with its height and sign, and with no doubt, whatever the floor. */
  lemma {:induction false} LevelShiftIsFound(sqrt: real -> real, series: seq<real>, floor: real, s: nat, x: real,
                                             y: real)
    requires IsRoot(sqrt) && Steps(series, s, x, y) && x != y
    ensures IsBest(At(Welch(sqrt), series), |series|, floor, |series|, Some(Changepoint(s, y - x, Infinite)))
  {
    var at := At(Welch(sqrt), series);
    AtTheStep(sqrt, series, s, x, y);
    forall split | split < |series| && Qualifies(at, |series|, floor, split)
      ensures Beats(at(s), split, at(split).significance)
    {
      if split < s {
        BeforeTheStep(sqrt, series, s, x, y, split);
      }
    }
  }
}
