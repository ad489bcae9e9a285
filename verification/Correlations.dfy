/**
 * Ranking candidate series by their correlation with a target (packages/analysis/src/primitives.ts),
 * over the reals. A gap in a series is None.
 */
module Correlations {
  import opened Wrappers
  import opened Reals
  import opened Sorting
  import opened Primitives

  type Series = seq<Option<real>>

  datatype Candidate = Candidate(key: string, series: Series)

  datatype Rank = Rank(key: string, coefficient: real, n: nat)

  /** Two aligned columns. */
  datatype Pairs = Pairs(xs: seq<real>, ys: seq<real>)

  /** The places below n where neither series has a gap. */
  function Aligned(target: Series, series: Series, n: nat): (p: Pairs)
    requires n <= |target| && n <= |series|
    ensures |p.xs| == |p.ys| <= n
  {
    if n == 0 then Pairs([], [])
    else
      var p := Aligned(target, series, n - 1);
      if target[n - 1].Some? && series[n - 1].Some?
      then Pairs(p.xs + [target[n - 1].value], p.ys + [series[n - 1].value])
      else p
  }

  function Shorter(target: Series, series: Series): (n: nat)
    ensures n <= |target| && n <= |series|
  {
    if |target| < |series| then |target| else |series|
  }

  function Products(xs: seq<real>, ys: seq<real>, mx: real, my: real): (r: seq<real>)
    requires |xs| == |ys|
    ensures |r| == |xs|
  {
    if xs == [] then []
    else
      var n := |xs| - 1;
      Products(xs[..n], ys[..n], mx, my) + [(xs[n] - mx) * (ys[n] - my)]
  }

  function Covariance(p: Pairs): real
    requires |p.xs| == |p.ys| && p.xs != []
  {
    Sum(Products(p.xs, p.ys, Mean(p.xs), Mean(p.ys)))
  }

  /** Pearson's coefficient from the three sums, undefined where a column is constant. */
  function Pearson(sqrt: real -> real, sxx: real, syy: real, sxy: real): Option<real> {
    var denom := sqrt(sxx * syy);
    if denom == 0.0 then None else Some(sxy / denom)
  }

  /** A candidate's rank, unless it has too few pairs or its correlation is undefined. */
  function RankOf(sqrt: real -> real, target: Series, candidate: Candidate): Option<Rank> {
    var p := Aligned(target, candidate.series, Shorter(target, candidate.series));
    if |p.xs| < 3 then None
    else
      var c := Pearson(sqrt, Spread(p.xs), Spread(p.ys), Covariance(p));
      if c.None? then None else Some(Rank(candidate.key, c.value, |p.xs|))
  }

  function Ranker(sqrt: real -> real, target: Series): Candidate -> Option<Rank> {
    (c: Candidate) => RankOf(sqrt, target, c)
  }

  /** The ranks of the candidates that have one. */
  function Ranks(rank: Candidate -> Option<Rank>, candidates: seq<Candidate>): seq<Rank> {
    if candidates == [] then []
    else
      var front, last := Ranks(rank, candidates[..|candidates| - 1]), rank(candidates[|candidates| - 1]);
      if last.Some? then front + [last.value] else front
  }

  /** Sorting by this key is sorting by decreasing absolute coefficient. */
  function Weakness(): Rank -> real {
    (r: Rank) => -Abs(r.coefficient)
  }

  method AlignPairs(target: Series, series: Series) returns (p: Pairs)
    ensures p == Aligned(target, series, Shorter(target, series))
  {
    p := Pairs([], []);
    for i := 0 to Shorter(target, series)
      invariant p == Aligned(target, series, i)
    {
      if target[i].Some? && series[i].Some? {
        p := Pairs(p.xs + [target[i].value], p.ys + [series[i].value]);
      }
    }
  }

  method RankCandidate(sqrt: real -> real, target: Series, candidate: Candidate) returns (r: Option<Rank>)
    ensures r == Ranker(sqrt, target)(candidate)
  {
    var p := AlignPairs(target, candidate.series);
    if |p.xs| < 3 {
      return None;
    }
    var c := Pearson(sqrt, Spread(p.xs), Spread(p.ys), Covariance(p));
    if c.None? {
      return None;
    }
    r := Some(Rank(candidate.key, c.value, |p.xs|));
  }

  method RankCorrelations(sqrt: real -> real, target: Series, candidates: seq<Candidate>) returns (ranks: seq<Rank>)
    ensures ranks == Sorted(Weakness(), Ranks(Ranker(sqrt, target), candidates))
  {
    ranks := [];
    for i := 0 to |candidates|
      invariant ranks == Ranks(Ranker(sqrt, target), candidates[..i])
    {
      assert candidates[..i + 1][..i] == candidates[..i];
      var r := RankCandidate(sqrt, target, candidates[i]);
      if r.Some? {
        ranks := ranks + [r.value];
      }
    }
    assert candidates[..|candidates|] == candidates;
    ranks := Sorted(Weakness(), ranks);
  }

  /* ---------------- Cauchy-Schwarz ---------------- */

  /** Two sums of squares and the sum of products between them. */
  ghost predicate Tamed(a: real, b: real, c: real) {
    0.0 <= a && 0.0 <= b && c * c <= a * b
  }

  lemma TwiceTheMean(p: real, q: real, z: real)
    requires Tamed(p, q, z)
    ensures z + z <= p + q
  {
    var s, w := p + q, z + z;
    SquareIsNotNegative(p - q);
    assert (p - q) * (p - q) == s * s - 4.0 * (p * q);
    assert w * w == 4.0 * (z * z);
    if s < w {
      SquaresDiffer(s, w);
    }
  }

  /** The mixed terms: a * q and b * p tame c * z. */
  lemma MixedTerms(a: real, b: real, c: real, p: real, q: real, z: real)
    requires Tamed(a, b, c) && Tamed(p, q, z)
    ensures Tamed(a * q, b * p, c * z)
  {
    var aq := NotNegative(a, q);
    var bp := NotNegative(b, p);
    SquareIsNotNegative(c);
    SquareIsNotNegative(z);
    BothAtMost(c * c, z * z, a * b, p * q);
    assert c * z * (c * z) == c * c * (z * z);
    assert a * q * (b * p) == a * b * (p * q);
  }

  lemma TamedStep(a: real, b: real, c: real, p: real, q: real, z: real)
    requires Tamed(a, b, c) && Tamed(p, q, z)
    ensures Tamed(a + p, b + q, c + z)
  {
    MixedTerms(a, b, c, p, q, z);
    TwiceTheMean(a * q, b * p, c * z);
    Expand(a, b, c, p, q, z);
  }

  lemma Expand(a: real, b: real, c: real, p: real, q: real, z: real)
    ensures (c + z) * (c + z) == c * c + (c * z + c * z) + z * z
    ensures (a + p) * (b + q) == a * b + (a * q + b * p) + p * q
  {
  }

  lemma {:induction false} SumsTamed(a: seq<real>, b: seq<real>, c: seq<real>)
    requires |a| == |b| == |c|
    requires forall i | 0 <= i < |a| :: Tamed(a[i], b[i], c[i])
    ensures Tamed(Sum(a), Sum(b), Sum(c))
  {
    if a != [] {
      var n := |a| - 1;
      SumsTamed(a[..n], b[..n], c[..n]);
      TamedStep(Sum(a[..n]), Sum(b[..n]), Sum(c[..n]), a[n], b[n], c[n]);
    }
  }

  lemma {:induction false} ProductsFront(xs: seq<real>, ys: seq<real>, mx: real, my: real, n: nat)
    requires |xs| == |ys| == n + 1
    ensures Products(xs, ys, mx, my)[..n] == Products(xs[..n], ys[..n], mx, my)
    ensures Products(xs, ys, mx, my)[n] == (xs[n] - mx) * (ys[n] - my)
  {
  }

  lemma {:induction false} ProductsAt(xs: seq<real>, ys: seq<real>, mx: real, my: real, i: nat)
    returns (d: real, e: real)
    requires |xs| == |ys| && i < |xs|
    ensures d == xs[i] - mx && e == ys[i] - my && Products(xs, ys, mx, my)[i] == d * e
  {
    var n := |xs| - 1;
    ProductsFront(xs, ys, mx, my, n);
    if i < n {
      d, e := ProductsAt(xs[..n], ys[..n], mx, my, i);
      assert Products(xs, ys, mx, my)[i] == Products(xs, ys, mx, my)[..n][i];
    } else {
      d, e := xs[i] - mx, ys[i] - my;
    }
  }

  lemma {:induction false} TamedAt(xs: seq<real>, ys: seq<real>, mx: real, my: real, i: nat)
    requires |xs| == |ys| && i < |xs|
    ensures Tamed(Squares(xs, mx)[i], Squares(ys, my)[i], Products(xs, ys, mx, my)[i])
  {
    var d := SquaresAt(xs, mx, i);
    var e := SquaresAt(ys, my, i);
    var f, g := ProductsAt(xs, ys, mx, my, i);
    ProductTamed(d, e);
  }

  lemma ProductTamed(d: real, e: real)
    ensures Tamed(d * d, e * e, d * e)
  {
    SquareIsNotNegative(d);
    SquareIsNotNegative(e);
    assert d * e * (d * e) == d * d * (e * e);
  }

  /** Over any two columns of the same length, about any two centres. */
  lemma {:induction false} CauchySchwarz(xs: seq<real>, ys: seq<real>, mx: real, my: real)
    requires |xs| == |ys|
    ensures Tamed(SquaredDeviations(xs, mx), SquaredDeviations(ys, my), Sum(Products(xs, ys, mx, my)))
  {
    forall i | 0 <= i < |xs|
      ensures Tamed(Squares(xs, mx)[i], Squares(ys, my)[i], Products(xs, ys, mx, my)[i])
    {
      TamedAt(xs, ys, mx, my, i);
    }
    SumsTamed(Squares(xs, mx), Squares(ys, my), Products(xs, ys, mx, my));
  }

  lemma ShareInUnit(c: real, r: real)
    requires 0.0 < r && c * c <= r * r
    ensures -1.0 <= c / r <= 1.0
  {
    if r < c {
      SquaresDiffer(r, c);
    } else if r < -c {
      SquaresDiffer(r, -c);
    }
    Quotient(c, r);
    var q := c / r;
    if 1.0 < q {
      ProductStrict(1.0, q, r);
    } else if q < -1.0 {
      ProductStrict(q, -1.0, r);
    }
  }

  lemma PearsonInRange(sqrt: real -> real, a: real, b: real, c: real)
    requires IsRoot(sqrt) && Tamed(a, b, c) && Pearson(sqrt, a, b, c).Some?
    ensures -1.0 <= Pearson(sqrt, a, b, c).value <= 1.0
  {
    var ab := NotNegative(a, b);
    ShareInUnit(c, sqrt(ab));
  }

  /** Every correlation lies in [-1, 1] and rests on at least three pairs. */
  lemma {:induction false} CoefficientInRange(sqrt: real -> real, target: Series, candidate: Candidate)
    requires IsRoot(sqrt) && RankOf(sqrt, target, candidate).Some?
    ensures var r := RankOf(sqrt, target, candidate).value;
            -1.0 <= r.coefficient <= 1.0 && 3 <= r.n && r.key == candidate.key
  {
    var p := Aligned(target, candidate.series, Shorter(target, candidate.series));
    CauchySchwarz(p.xs, p.ys, Mean(p.xs), Mean(p.ys));
    PearsonInRange(sqrt, Spread(p.xs), Spread(p.ys), Covariance(p));
  }

  /* ---------------- who is left out ---------------- */

  lemma UndefinedExactly(sqrt: real -> real, a: real, b: real, c: real)
    requires IsRoot(sqrt) && 0.0 <= a && 0.0 <= b
    ensures Pearson(sqrt, a, b, c).None? <==> a == 0.0 || b == 0.0
  {
    ZeroProduct(a, b);
    ZeroSquare(sqrt(a * b));
  }

  /** A candidate is left out exactly if it has fewer than three pairs or either side of them is constant. */
  lemma {:induction false} LeftOutExactly(sqrt: real -> real, target: Series, candidate: Candidate)
    requires IsRoot(sqrt)
    ensures var p := Aligned(target, candidate.series, Shorter(target, candidate.series));
            RankOf(sqrt, target, candidate).None? <==> |p.xs| < 3 || Constant(p.xs) || Constant(p.ys)
  {
    var p := Aligned(target, candidate.series, Shorter(target, candidate.series));
    if 3 <= |p.xs| {
      ConstantSpread(p.xs);
      ConstantSpread(p.ys);
      UndefinedExactly(sqrt, Spread(p.xs), Spread(p.ys), Covariance(p));
    }
  }

  lemma {:induction false} RanksAreOfCandidates(rank: Candidate -> Option<Rank>, candidates: seq<Candidate>, r: Rank)
    ensures r in Ranks(rank, candidates) <==> exists i | 0 <= i < |candidates| :: rank(candidates[i]) == Some(r)
  {
    if candidates != [] {
      var front := candidates[..|candidates| - 1];
      RanksAreOfCandidates(rank, front, r);
      assert forall i | 0 <= i < |front| :: front[i] == candidates[i];
    }
  }

  /** How many candidates have a rank. */
  function Ranked(rank: Candidate -> Option<Rank>, candidates: seq<Candidate>): nat {
    if candidates == [] then 0
    else Ranked(rank, candidates[..|candidates| - 1]) + if rank(candidates[|candidates| - 1]).Some? then 1 else 0
  }

  lemma {:induction false} RanksCount(rank: Candidate -> Option<Rank>, candidates: seq<Candidate>)
    ensures |Ranks(rank, candidates)| == Ranked(rank, candidates)
  {
    if candidates != [] {
      RanksCount(rank, candidates[..|candidates| - 1]);
    }
  }

  ghost predicate IsRankOfSome(rank: Candidate -> Option<Rank>, candidates: seq<Candidate>, r: Rank) {
    exists i | 0 <= i < |candidates| :: rank(candidates[i]) == Some(r)
  }

  /** The ranking holds exactly the ranks of the candidates that have one, as often as they have it. */
  lemma {:induction false} RankingHoldsExactly(rank: Candidate -> Option<Rank>, candidates: seq<Candidate>)
    ensures var ranks := Sorted(Weakness(), Ranks(rank, candidates));
            && |ranks| == Ranked(rank, candidates)
            && multiset(ranks) == multiset(Ranks(rank, candidates))
            && (forall r :: multiset(ranks)[r] == HavingRank(rank, candidates, r))
            && forall r :: r in ranks <==> IsRankOfSome(rank, candidates, r)
  {
    var all := Ranks(rank, candidates);
    SortedKeepsAll(Weakness(), all);
    RanksCount(rank, candidates);
    forall r: Rank
      ensures multiset(all)[r] == HavingRank(rank, candidates, r)
      ensures r in Sorted(Weakness(), all) <==> IsRankOfSome(rank, candidates, r)
    {
      SameElements(Weakness(), all, r);
      RanksAreOfCandidates(rank, candidates, r);
      RankCount(rank, candidates, r);
    }
  }

  /** How many candidates have this rank. */
  function HavingRank(rank: Candidate -> Option<Rank>, candidates: seq<Candidate>, r: Rank): nat {
    if candidates == [] then 0
    else HavingRank(rank, candidates[..|candidates| - 1], r)
         + if rank(candidates[|candidates| - 1]) == Some(r) then 1 else 0
  }

  lemma {:induction false} RankCount(rank: Candidate -> Option<Rank>, candidates: seq<Candidate>, r: Rank)
    ensures multiset(Ranks(rank, candidates))[r] == HavingRank(rank, candidates, r)
  {
    if candidates != [] {
      RankCount(rank, candidates[..|candidates| - 1], r);
    }
  }

  /** By decreasing absolute coefficient; candidates of equal strength keep their order. */
  lemma {:induction false} RankingIsOrdered(rank: Candidate -> Option<Rank>, candidates: seq<Candidate>)
    ensures var ranks := Sorted(Weakness(), Ranks(rank, candidates));
            && (forall i, j | 0 <= i < j < |ranks| :: Abs(ranks[j].coefficient) <= Abs(ranks[i].coefficient))
            && (forall k :: WithKey(Weakness(), ranks, k) == WithKey(Weakness(), Ranks(rank, candidates), k))
  {
    var all := Ranks(rank, candidates);
    var ranks := Sorted(Weakness(), all);
    SortedIsOrdered(Weakness(), all);
    forall i, j | 0 <= i < j < |ranks|
      ensures Abs(ranks[j].coefficient) <= Abs(ranks[i].coefficient)
    {
      assert Weakness()(ranks[i]) <= Weakness()(ranks[j]);
    }
    forall k
      ensures WithKey(Weakness(), ranks, k) == WithKey(Weakness(), all, k)
    {
      SortedIsStable(Weakness(), all, k);
    }
  }

  /** Every reported correlation lies in [-1, 1] and rests on at least three pairs. */
  lemma {:induction false} ReportedInRange(sqrt: real -> real, target: Series, candidates: seq<Candidate>, r: Rank)
    requires IsRoot(sqrt)
    requires r in Sorted(Weakness(), Ranks(Ranker(sqrt, target), candidates))
    ensures -1.0 <= r.coefficient <= 1.0 && 3 <= r.n
  {
    RankingHoldsExactly(Ranker(sqrt, target), candidates);
    assert IsRankOfSome(Ranker(sqrt, target), candidates, r);
    var i :| 0 <= i < |candidates| && Ranker(sqrt, target)(candidates[i]) == Some(r);
    CoefficientInRange(sqrt, target, candidates[i]);
  }

  /* ---------------- a linear relation is perfect ---------------- */

  /** Wherever both have a value, the candidate's is k times the target's, shifted by c. */
  ghost predicate Linear(target: Series, series: Series, k: real, c: real) {
    forall i | 0 <= i < |target| && i < |series| && target[i].Some? && series[i].Some? ::
      Moved(target[i].value, series[i].value, k, c)
  }

  lemma {:induction false} AlignedLinear(target: Series, series: Series, n: nat, k: real, c: real)
    requires n <= |target| && n <= |series| && Linear(target, series, k, c)
    ensures var p := Aligned(target, series, n); AffineImage(p.xs, p.ys, k, c)
  {
    if 0 < n {
      AlignedLinear(target, series, n - 1, k, c);
    }
  }

  lemma {:induction false} ProductMovesAt(p: Pairs, mx: real, my: real, k: real, c: real, i: nat)
    requires |p.xs| == |p.ys| && i < |p.xs| && Moved(p.xs[i], p.ys[i], k, c) && Moved(mx, my, k, c)
    ensures Moved(Squares(p.xs, mx)[i], Products(p.xs, p.ys, mx, my)[i], k, 0.0)
  {
    var s := SquaresAt(p.xs, mx, i);
    var d, e := ProductsAt(p.xs, p.ys, mx, my, i);
    DistanceMoves(p.xs[i], p.ys[i], mx, my, k, c);
    ScaledProduct(d, e, k);
  }

  lemma ScaledProduct(d: real, e: real, k: real)
    requires e == k * d
    ensures d * e == k * (d * d) + 0.0
  {
  }

  lemma {:induction false} CovarianceMoves(p: Pairs, k: real, c: real)
    requires |p.xs| == |p.ys| && p.xs != [] && AffineImage(p.xs, p.ys, k, c)
    ensures Covariance(p) == k * Spread(p.xs) && Spread(p.ys) == k * k * Spread(p.xs)
  {
    var mx, my := Mean(p.xs), Mean(p.ys);
    MeanMoves(p.xs, p.ys, k, c);
    DeviationsMove(p.xs, p.ys, mx, my, k, c, k * k);
    var squares, products := Squares(p.xs, mx), Products(p.xs, p.ys, mx, my);
    forall i | 0 <= i < |squares|
      ensures Moved(squares[i], products[i], k, 0.0)
    {
      ProductMovesAt(p, mx, my, k, c, i);
    }
    SumMoves(squares, products, k, 0.0);
  }

  lemma SameSquares(r: real, b: real)
    requires 0.0 <= r && 0.0 <= b && r * r == b * b
    ensures r == b
  {
    if r < b {
      SquaresDiffer(r, b);
    } else if b < r {
      SquaresDiffer(b, r);
    }
  }

  lemma PerfectRoot(sqrt: real -> real, a: real, k: real)
    requires IsRoot(sqrt) && 0.0 < a && k != 0.0
    ensures sqrt(a * (k * k * a)) == Abs(k) * a && 0.0 < Abs(k) * a
  {
    var b := Times(Abs(k), a);
    assert b * b == a * (k * k * a);
    SquareIsNotNegative(b);
    SameSquares(sqrt(a * (k * k * a)), b);
  }

  lemma PerfectPearson(sqrt: real -> real, sxx: real, syy: real, sxy: real, k: real)
    requires IsRoot(sqrt) && 0.0 < sxx && k != 0.0 && syy == k * k * sxx && sxy == k * sxx
    ensures Pearson(sqrt, sxx, syy, sxy) == Some(if 0.0 < k then 1.0 else -1.0)
  {
    PerfectRoot(sqrt, sxx, k);
    var b := Abs(k) * sxx;
    assert sxy == if 0.0 < k then b else -b;
    OverItself(b);
  }

  lemma OverItself(b: real)
    requires 0.0 < b
    ensures b / b == 1.0 && -b / b == -1.0
  {
  }

  lemma {:induction false} LinearColumns(sqrt: real -> real, p: Pairs, k: real, c: real)
    requires IsRoot(sqrt) && k != 0.0 && |p.xs| == |p.ys| && p.xs != [] && AffineImage(p.xs, p.ys, k, c)
    requires !Constant(p.xs)
    ensures Pearson(sqrt, Spread(p.xs), Spread(p.ys), Covariance(p)) == Some(if 0.0 < k then 1.0 else -1.0)
  {
    CovarianceMoves(p, k, c);
    ConstantSpread(p.xs);
    PerfectPearson(sqrt, Spread(p.xs), Spread(p.ys), Covariance(p), k);
  }

  lemma {:induction false} RankIsPearson(sqrt: real -> real, target: Series, candidate: Candidate, p: Pairs)
    requires p == Aligned(target, candidate.series, Shorter(target, candidate.series))
    requires RankOf(sqrt, target, candidate).Some?
    ensures p.xs != []
    ensures Pearson(sqrt, Spread(p.xs), Spread(p.ys), Covariance(p))
         == Some(RankOf(sqrt, target, candidate).value.coefficient)
  {
  }

  /** A candidate that is a linear image of the target correlates perfectly: 1 if it rises with it, -1 if it falls. */
  lemma {:induction false} LinearIsPerfect(sqrt: real -> real, target: Series, candidate: Candidate, k: real, c: real)
    requires IsRoot(sqrt) && k != 0.0 && Linear(target, candidate.series, k, c)
    requires RankOf(sqrt, target, candidate).Some?
    ensures RankOf(sqrt, target, candidate).value.coefficient == if 0.0 < k then 1.0 else -1.0
  {
    var n := Shorter(target, candidate.series);
    var p := Aligned(target, candidate.series, n);
    AlignedLinear(target, candidate.series, n, k, c);
    LeftOutExactly(sqrt, target, candidate);
    RankIsPearson(sqrt, target, candidate, p);
    LinearColumns(sqrt, p, k, c);
  }

  /** The places below n at which both series have a value. */
  function Complete(target: Series, series: Series, n: nat): set<nat>
    requires n <= |target| && n <= |series|
  {
    set i: nat | i < n && target[i].Some? && series[i].Some?
  }

  lemma {:induction false} AlignedCount(target: Series, series: Series, n: nat)
    requires n <= |target| && n <= |series|
    ensures |Aligned(target, series, n).xs| == |Complete(target, series, n)|
  {
    if n == 0 {
      assert Complete(target, series, n) == {};
    } else {
      AlignedCount(target, series, n - 1);
      assert Complete(target, series, n)
          == Complete(target, series, n - 1) + if target[n - 1].Some? && series[n - 1].Some? then {n - 1} else {};
    }
  }

  /** A rank carries its candidate's key and the number of places at which both series have a value. */
  lemma {:induction false} RankIsLabelled(sqrt: real -> real, target: Series, candidate: Candidate)
    requires RankOf(sqrt, target, candidate).Some?
    ensures var (r, n) := (RankOf(sqrt, target, candidate).value, Shorter(target, candidate.series));
            && r.key == candidate.key
            && (n == |target| || n == |candidate.series|)
            && r.n == |Complete(target, candidate.series, n)|
  {
    AlignedCount(target, candidate.series, Shorter(target, candidate.series));
  }
}
