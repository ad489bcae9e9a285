/**
 * Always-valid sequential testing (packages/experiments/src/sequential.ts), over the reals.
 *
 * The natural logarithm and the square root are parameters; everything proved holds for any pair of
 * functions obeying the laws below, which the real ln and sqrt do.
 */
module Sequential {
  import opened Reals

  datatype Maths = Maths(ln: real -> real, sqrt: real -> real)

  predicate GrowsSlowly(m: Maths, x: real, y: real)
    requires 0.0 < x
  {
    m.ln(x) <= m.ln(y) <= m.ln(x) + (y - x) / x
  }

  /** ln is monotone and grows no faster than ln(x(1 + t)) <= ln x + t; sqrt is the non-negative root. */
  ghost predicate Lawful(m: Maths) {
    && (forall x, y | 0.0 < x <= y :: GrowsSlowly(m, x, y))
    && IsRoot(m.sqrt)
  }

  datatype Arm = Control | Variant

  datatype ArmState = ArmState(n: nat, sum: real)

  datatype TestState = TestState(control: ArmState, variant: ArmState, alpha: real, rho: real)

  function Observe(s: TestState, arm: Arm, value: real): TestState {
    match arm
    case Control => s.(control := ArmState(s.control.n + 1, s.control.sum + value))
    case Variant => s.(variant := ArmState(s.variant.n + 1, s.variant.sum + value))
  }

  /** Variance proxy for observations in [0, 1]. */
  const SIGMA2 := 0.25

  function Max(x: real, y: real): real {
    if x < y then y else x
  }

  /** The square of the confidence-sequence radius. */
  function RadiusSquared(m: Maths, n: real, alpha: real, rho: real): real
    requires 0.0 < n && 0.0 < alpha && 0.0 < rho
  {
    PositiveProducts(n, alpha, rho);
    SIGMA2 * (n * rho + 1.0) / (n * n * rho) * Max(m.ln((n * rho + 1.0) / (alpha * alpha)), 0.0)
  }

  lemma PositiveProducts(n: real, alpha: real, rho: real)
    requires 0.0 < n && 0.0 < alpha && 0.0 < rho
    ensures 0.0 < n * n * rho && 0.0 < alpha * alpha && 0.0 < n * rho
  {
    var x := Times(n, rho);
    x := Times(n, x);
    x := Times(alpha, alpha);
  }

  /** csRadius for n > 0. */
  function CsRadius(m: Maths, n: nat, alpha: real, rho: real): real
    requires 0 < n && 0.0 < alpha && 0.0 < rho
  {
    m.sqrt(RadiusSquared(m, n as real, alpha, rho))
  }

  datatype Decision = Inconclusive | Ship | Revert

  /** Whole is the interval from minus to plus infinity. */
  datatype Interval = Whole | Between(lower: real, upper: real) {
    predicate Above(x: real) {
      Between? && lower > x
    }

    predicate Below(x: real) {
      Between? && upper < x
    }
  }

  datatype Samples = Samples(control: nat, variant: nat)

  datatype Evaluation = Evaluation(decision: Decision, effect: real, interval: Interval, samples: Samples)

  predicate Tuned(s: TestState) {
    0.0 < s.alpha && 0.0 < s.rho
  }

  function Decide(interval: Interval): Decision {
    if interval.Above(0.0) then Ship else if interval.Below(0.0) then Revert else Inconclusive
  }

  function Evaluate(m: Maths, s: TestState): Evaluation
    requires Tuned(s)
  {
    var samples := Samples(s.control.n, s.variant.n);
    if s.control.n == 0 || s.variant.n == 0 then Evaluation(Inconclusive, 0.0, Whole, samples)
    else
      var effect := s.variant.sum / s.variant.n as real - s.control.sum / s.control.n as real;
      var half := s.alpha / 2.0;
      var radius := CsRadius(m, s.control.n, half, s.rho) + CsRadius(m, s.variant.n, half, s.rho);
      var interval := Between(effect - radius, effect + radius);
      Evaluation(Decide(interval), effect, interval, samples)
  }

  /* ---------------- the radius shrinks ---------------- */

  /** With m = n * rho, the growth of the logarithm loses to the shrinking fraction. */
  lemma CrossProducts(m: real, rho: real)
    requires 0.0 < m && 0.0 < rho
    ensures m * m * ((m + rho + 1.0) * (m + rho + 1.0)) < (m + 1.0) * (m + 1.0) * ((m + rho) * (m + rho))
  {
    var x, y := m * (m + rho + 1.0), (m + 1.0) * (m + rho);
    assert y - x == rho;
    assert 0.0 < x;
    assert x * x < y * y by {
      ProductStrict(x, y, x);
      ProductStrict(x, y, y);
    }
    assert x * x == m * m * ((m + rho + 1.0) * (m + rho + 1.0));
    assert y * y == (m + 1.0) * (m + 1.0) * ((m + rho) * (m + rho));
  }

  lemma Regroup(n: real, rho: real, x: real)
    ensures x * (n * n * rho) * rho == n * rho * (n * rho) * x
  {
    assert x * (n * n * rho) * rho == n * rho * (n * rho) * x by {
      var m := n * rho;
      assert n * n * rho * rho == m * m;
      assert x * (n * n * rho) * rho == x * (n * n * rho * rho);
    }
  }

  lemma ThreeFactors(f: real, q: real, b: real, low: real, d: real, top: real)
    requires f * b == top && q * low == top
    ensures f * q * (b * low * d) == top * top * d
  {
    assert f * q * (b * low * d) == (f * b) * (q * low) * d;
  }

  lemma TwoFactors(f: real, d: real, b: real, low: real)
    requires f * d == low
    ensures f * (b * low * d) == low * low * b
  {
    assert f * (b * low * d) == (f * d) * low * b;
  }

  lemma FactorCross(n: real, p: real, rho: real, low: real, top: real, d: real, b: real)
    requires 0.0 < n && p == n + 1.0 && 0.0 < rho
    requires low == n * rho + 1.0 && top == p * rho + 1.0 && d == n * n * rho && b == p * p * rho
    ensures top == low + rho && top * top * d < low * low * b
  {
    var m := n * rho;
    assert p * rho == m + rho;
    PositiveProducts(n, 1.0, rho);
    CrossProducts(m, rho);
    Regroup(n, rho, top * top);
    Regroup(p, rho, low * low);
    Cancel(top * top * d, low * low * b, rho);
  }

  lemma CrossDivided(f: real, f': real, q: real, b: real, d: real, low: real, top: real)
    requires 0.0 < b && 0.0 < d && 0.0 < low
    requires f * d == low && f' * b == top && q * low == top
    requires top * top * d < low * low * b
    ensures f' * q < f
  {
    ThreeFactors(f', q, b, low, d, top);
    TwoFactors(f, d, b, low);
    ProductStrict(0.0, b, low);
    ProductStrict(0.0, b * low, d);
    Cancel(f' * q, f, b * low * d);
  }

  /** The factor before the logarithm is SIGMA2 * f, with f * d == low. */
  lemma Parts(n: real, rho: real) returns (f: real, low: real, d: real)
    requires 0.0 < n && 0.0 < rho
    ensures low == n * rho + 1.0 && d == n * n * rho
    ensures f * d == low && 0.0 < d && 1.0 < low && 0.0 < f
  {
    d := Times(n, rho);
    low := d + 1.0;
    d := Times(n, d);
    f := low / d;
    Quotient(low, d);
  }

  lemma CrossQuotient(f: real, f': real, b: real, d: real, low: real, top: real)
    requires 0.0 < b && 0.0 < d && 0.0 < low
    requires f * d == low && f' * b == top
    requires top * top * d < low * low * b
    ensures f' * (top / low) < f
  {
    Quotient(top, low);
    CrossDivided(f, f', top / low, b, d, low, top);
  }

  lemma {:induction false} LawAt(m: Maths, x: real, y: real)
    requires Lawful(m) && 0.0 < x <= y
    ensures m.ln(x) <= m.ln(y) <= m.ln(x) + (y - x) / x
  {
    assert GrowsSlowly(m, x, y);
  }

  lemma RelativeGrowth(u: real, u': real, k: real, rho: real, a2: real)
    requires 0.0 < k && 0.0 < a2 && 0.0 < u
    requires u * a2 == k && u' * a2 == k + rho
    ensures (u' - u) / u == rho / k
  {
    var g, t := (u' - u) / u, rho / k;
    Quotient(u' - u, u);
    Quotient(rho, k);
    assert g * k == g * u * a2 == rho;
    if g < t {
      ProductStrict(g, t, k);
    } else if t < g {
      ProductStrict(t, g, k);
    }
  }

  lemma SpreadOver(l: real, k: real, rho: real)
    requires 1.0 <= l && 0.0 < k && 0.0 < rho
    ensures l + rho / k <= l * ((k + rho) / k)
  {
    var t := rho / k;
    Quotient(rho, k);
    Quotient(k + rho, k);
    SameByProduct((k + rho) / k, 1.0 + t, k);
    ProductMonotone(1.0, l, t);
    assert l * (1.0 + t) == l + l * t;
  }

  lemma {:induction false} LnAtLeastOne(m: Maths, k: real, a2: real)
    requires Lawful(m) && 1.0 <= k && 0.0 < a2 && 1.0 <= m.ln(1.0 / a2)
    ensures 1.0 <= m.ln(k / a2)
  {
    Quotient(1.0, a2);
    FractionAtMost(1.0, k, a2);
    LawAt(m, 1.0 / a2, k / a2);
  }

  lemma {:induction false} LnGrows(m: Maths, k: real, k': real, rho: real, a2: real)
    requires Lawful(m) && 0.0 < k && k' == k + rho && 0.0 < rho && 0.0 < a2
    ensures m.ln(k / a2) <= m.ln(k' / a2) <= m.ln(k / a2) + rho / k
  {
    var u, u' := k / a2, k' / a2;
    Quotient(k, a2);
    Quotient(k', a2);
    FractionAtMost(k, k', a2);
    RelativeGrowth(u, u', k, rho, a2);
    LawAt(m, u, u');
  }

  /** The logarithm's growth over one observation, relative to its value. */
  lemma {:induction false} LogGrowth(m: Maths, k: real, k': real, rho: real, a2: real)
    requires Lawful(m) && 1.0 <= k && k' == k + rho && 0.0 < rho && 0.0 < a2
    requires 1.0 <= m.ln(1.0 / a2)
    ensures 1.0 <= m.ln(k / a2) <= m.ln(k' / a2) <= m.ln(k / a2) * (k' / k)
  {
    LnAtLeastOne(m, k, a2);
    LnGrows(m, k, k', rho, a2);
    SpreadOver(m.ln(k / a2), k, rho);
  }

  lemma Combine(f: real, f': real, q: real, l: real, l': real)
    requires f' * q < f && 0.0 < f' && 1.0 <= l && 0.0 <= l' <= l * q
    ensures 0.0 <= f' * l' < f * l
  {
    ProductMonotone(l', l * q, f');
    assert l * q * f' == f' * q * l;
    ProductStrict(f' * q, f, l);
    ProductMonotone(0.0, l', f');
  }

  /** The numbers of two neighbouring radii, and all that is needed of them. */
  lemma {:induction false} RadiusPair(m: Maths, n: real, p: real, alpha: real, rho: real)
    returns (f: real, f': real, d: real, b: real, low: real, top: real)
    requires 0.0 < n && p == n + 1.0 && 0.0 < alpha && 0.0 < rho && 0.0 < alpha * alpha
    ensures 0.0 < b && 0.0 < d && 1.0 < low && 0.0 < f' && top == low + rho
    ensures f * d == low && f' * b == top && top * top * d < low * low * b
    ensures RadiusSquared(m, n, alpha, rho) == SIGMA2 * (f * Max(m.ln(low / (alpha * alpha)), 0.0))
    ensures RadiusSquared(m, p, alpha, rho) == SIGMA2 * (f' * Max(m.ln(top / (alpha * alpha)), 0.0))
  {
    f, low, d := Parts(n, rho);
    f', top, b := Parts(p, rho);
    FactorCross(n, p, rho, low, top, d, b);
    RadiusByFactor(m, n, alpha, rho, f, low, d);
    RadiusByFactor(m, p, alpha, rho, f', top, b);
  }

  /** One more observation: the squared radius strictly falls wherever the logarithm is at least one. */
  lemma {:induction false} RadiusSquaredFalls(m: Maths, n: real, p: real, alpha: real, rho: real)
    requires Lawful(m) && 0.0 < n && p == n + 1.0 && 0.0 < alpha && 0.0 < rho
    requires 0.0 < alpha * alpha && 1.0 <= m.ln(1.0 / (alpha * alpha))
    ensures 0.0 <= RadiusSquared(m, p, alpha, rho) < RadiusSquared(m, n, alpha, rho)
  {
    var f, f', d, b, low, top := RadiusPair(m, n, p, alpha, rho);
    FactorTimesLog(m, alpha * alpha, rho, f, f', b, d, low, top);
  }

  lemma {:induction false} FactorTimesLog(m: Maths, a2: real, rho: real, f: real, f': real, b: real, d: real,
                                          low: real, top: real)
    requires Lawful(m) && 0.0 < rho && 0.0 < a2 && 1.0 <= m.ln(1.0 / a2)
    requires 0.0 < b && 0.0 < d && 1.0 < low && 0.0 < f' && top == low + rho
    requires f * d == low && f' * b == top && top * top * d < low * low * b
    ensures 1.0 <= m.ln(low / a2) && 1.0 <= m.ln(top / a2)
    ensures 0.0 <= f' * m.ln(top / a2) < f * m.ln(low / a2)
  {
    CrossQuotient(f, f', b, d, low, top);
    LogsCombined(m, a2, rho, f, f', top / low, low, top);
  }

  lemma {:induction false} LogsCombined(m: Maths, a2: real, rho: real, f: real, f': real, q: real, low: real, top: real)
    requires Lawful(m) && 0.0 < rho && 0.0 < a2 && 1.0 <= m.ln(1.0 / a2)
    requires 1.0 < low && top == low + rho && q == top / low
    requires 0.0 < f' && f' * q < f
    ensures 1.0 <= m.ln(low / a2) && 1.0 <= m.ln(top / a2)
    ensures 0.0 <= f' * m.ln(top / a2) < f * m.ln(low / a2)
  {
    LogGrowth(m, low, top, rho, a2);
    Combine(f, f', q, m.ln(low / a2), m.ln(top / a2));
  }

  lemma {:induction false} RadiusByFactor(m: Maths, n: real, alpha: real, rho: real, f: real, low: real, d: real)
    requires 0.0 < n && 0.0 < alpha && 0.0 < rho && 0.0 < d
    requires low == n * rho + 1.0 && d == n * n * rho && f * d == low
    ensures 0.0 < alpha * alpha
    ensures RadiusSquared(m, n, alpha, rho) == SIGMA2 * (f * Max(m.ln(low / (alpha * alpha)), 0.0))
  {
    PositiveProducts(n, alpha, rho);
    Quotient(SIGMA2 * low, d);
    SameByProduct(SIGMA2 * low / d, SIGMA2 * f, d);
  }

  lemma {:induction false} RootStrict(m: Maths, x: real, y: real)
    requires Lawful(m) && 0.0 <= x < y
    ensures m.sqrt(x) < m.sqrt(y)
  {
    SquaresOrder(m.sqrt(x), m.sqrt(y));
  }

  /** csRadius strictly decreases in n. */
  lemma {:induction false} RadiusFalls(m: Maths, n: nat, alpha: real, rho: real)
    requires Lawful(m) && 0 < n && 0.0 < alpha && 0.0 < rho
    requires 1.0 <= m.ln(1.0 / (alpha * alpha))
    ensures CsRadius(m, n + 1, alpha, rho) < CsRadius(m, n, alpha, rho)
  {
    RadiusSquaredFalls(m, n as real, n as real + 1.0, alpha, rho);
    RootStrict(m, RadiusSquared(m, n as real + 1.0, alpha, rho), RadiusSquared(m, n as real, alpha, rho));
  }

  function Width(i: Interval): real
    requires i.Between?
  {
    i.upper - i.lower
  }

  lemma {:induction false} WidthIs(m: Maths, s: TestState)
    requires Tuned(s) && 0 < s.control.n && 0 < s.variant.n
    ensures var i := Evaluate(m, s).interval;
            var half := s.alpha / 2.0;
            i.Between? && Width(i)
                == 2.0 * (CsRadius(m, s.control.n, half, s.rho) + CsRadius(m, s.variant.n, half, s.rho))
  {
  }

  /**
   * Once both arms have data, every further observation on either arm strictly narrows the
   * confidence interval, whatever its value.
   */
  lemma {:induction false} EveryObservationNarrows(m: Maths, s: TestState, arm: Arm, value: real)
    requires Lawful(m) && Tuned(s)
    requires 1.0 <= m.ln(4.0 / (s.alpha * s.alpha))
    requires 0 < s.control.n && 0 < s.variant.n
    ensures var before, after := Evaluate(m, s).interval, Evaluate(m, Observe(s, arm, value)).interval;
            before.Between? && after.Between? && Width(after) < Width(before)
  {
    var half := s.alpha / 2.0;
    assert 1.0 / (half * half) == 4.0 / (s.alpha * s.alpha) by {
      assert half * half == s.alpha * s.alpha / 4.0;
    }
    RadiusFalls(m, s.control.n, half, s.rho);
    RadiusFalls(m, s.variant.n, half, s.rho);
    WidthIs(m, s);
    WidthIs(m, Observe(s, arm, value));
  }

  function Swapped(s: TestState): TestState {
    s.(control := s.variant, variant := s.control)
  }

  function Mirrored(i: Interval): Interval {
    match i
    case Whole => Whole
    case Between(lower, upper) => Between(-upper, -lower)
  }

  lemma {:induction false} RadiusIsNotNegative(m: Maths, n: nat, alpha: real, rho: real)
    requires Lawful(m) && 0 < n && 0.0 < alpha && 0.0 < rho
    ensures 0.0 <= RadiusSquared(m, n as real, alpha, rho) && 0.0 <= CsRadius(m, n, alpha, rho)
  {
    var f, low, d := Parts(n as real, rho);
    RadiusByFactor(m, n as real, alpha, rho, f, low, d);
    ProductMonotone(0.0, Max(m.ln(low / (alpha * alpha)), 0.0), f);
  }

  /** The two arms are treated alike: exchanging them mirrors the interval and turns ship into revert. */
  lemma {:induction false} ExchangingArmsMirrors(m: Maths, s: TestState)
    requires Lawful(m) && Tuned(s)
    ensures var here, there := Evaluate(m, s), Evaluate(m, Swapped(s));
            && there.effect == -here.effect
            && there.interval == Mirrored(here.interval)
            && (there.decision == Ship <==> here.decision == Revert)
            && (there.decision == Revert <==> here.decision == Ship)
  {
    if 0 < s.control.n && 0 < s.variant.n {
      RadiusIsNotNegative(m, s.control.n, s.alpha / 2.0, s.rho);
      RadiusIsNotNegative(m, s.variant.n, s.alpha / 2.0, s.rho);
    }
  }

  predicate InUnit(values: seq<real>) {
    forall i | 0 <= i < |values| :: 0.0 <= values[i] <= 1.0
  }

  lemma {:induction false} SumInUnit(values: seq<real>)
    requires InUnit(values)
    ensures 0.0 <= Sum(values) <= |values| as real
  {
    if values != [] {
      SumInUnit(values[..|values| - 1]);
    }
  }

  /** An arm after observing these values. */
  function After(values: seq<real>): ArmState {
    ArmState(|values|, Sum(values))
  }

  lemma {:induction false} MeanInUnit(values: seq<real>)
    requires InUnit(values) && 0 < |values|
    ensures 0.0 <= Sum(values) / |values| as real <= 1.0
  {
    SumInUnit(values);
    var n := |values| as real;
    var mean := Sum(values) / n;
    Quotient(Sum(values), n);
    if mean < 0.0 {
      ProductStrict(mean, 0.0, n);
    } else if 1.0 < mean {
      ProductStrict(1.0, mean, n);
    }
  }

  /** While the two radii still span the whole range of a difference of means, no data can decide. */
  lemma {:induction false} WideRadiusDecidesNothing(m: Maths, control: seq<real>, variant: seq<real>, alpha: real,
                                                    rho: real)
    requires Lawful(m) && 0.0 < alpha && 0.0 < rho
    requires InUnit(control) && InUnit(variant)
    requires 0 < |control| && 0 < |variant| ==>
               1.0 <= CsRadius(m, |control|, alpha / 2.0, rho) + CsRadius(m, |variant|, alpha / 2.0, rho)
    ensures Evaluate(m, TestState(After(control), After(variant), alpha, rho)).decision == Inconclusive
  {
    if 0 < |control| && 0 < |variant| {
      MeanInUnit(control);
      MeanInUnit(variant);
    }
  }

  /* ---------------- the test as it changes its state ---------------- */

  /**
   * The evaluation of two arms after their observations: the difference of the means, the sum of the two
   * radii to either side of it, each at half of alpha, and a decision once zero is outside.
   */
  lemma {:induction false} EvaluationIs(m: Maths, control: seq<real>, variant: seq<real>, alpha: real, rho: real)
    requires 0.0 < alpha && 0.0 < rho
    ensures var e := Evaluate(m, TestState(After(control), After(variant), alpha, rho));
            && e.samples == Samples(|control|, |variant|)
            && (control == [] || variant == [] ==>
                  e.decision == Inconclusive && e.effect == 0.0 && e.interval == Whole)
            && (control != [] && variant != [] ==>
                  && e.effect == Sum(variant) / |variant| as real - Sum(control) / |control| as real
                  && e.interval.Between?
                  && e.interval.lower == e.effect - (CsRadius(m, |control|, alpha / 2.0, rho)
                                                     + CsRadius(m, |variant|, alpha / 2.0, rho))
                  && e.interval.upper == e.effect + (CsRadius(m, |control|, alpha / 2.0, rho)
                                                     + CsRadius(m, |variant|, alpha / 2.0, rho))
                  && (e.decision == Ship <==> 0.0 < e.interval.lower)
                  && (e.decision == Revert <==> e.interval.lower <= 0.0 && e.interval.upper < 0.0))
  {
  }

  /** The radius is the root of (n rho + 1) / (4 n^2 rho) times the logarithm of (n rho + 1) / alpha^2, if positive. */
  lemma {:induction false} RadiusIs(m: Maths, n: nat, alpha: real, rho: real)
    requires Lawful(m) && 0 < n && 0.0 < alpha && 0.0 < rho
    ensures 0.0 < alpha * alpha
    ensures var r, x := CsRadius(m, n, alpha, rho), n as real;
            && 0.0 <= r
            && r * r * (4.0 * (x * x * rho))
               == (x * rho + 1.0) * Max(m.ln((x * rho + 1.0) / (alpha * alpha)), 0.0)
  {
    var x := n as real;
    var f, low, d := Parts(x, rho);
    RadiusByFactor(m, x, alpha, rho, f, low, d);
    RadiusIsNotNegative(m, n, alpha, rho);
    var r, log := CsRadius(m, n, alpha, rho), Max(m.ln(low / (alpha * alpha)), 0.0);
    FourTimes(r * r, f, d, low, log);
  }

  lemma FourTimes(square: real, f: real, d: real, low: real, log: real)
    requires square == SIGMA2 * (f * log) && f * d == low
    ensures square * (4.0 * d) == low * log
  {
    assert square * (4.0 * d) == (f * d) * log;
  }

  class SequentialTest {
    var control: ArmState
    var variant: ArmState
    const alpha: real
    const rho: real

    function State(): TestState
      reads this
    {
      TestState(control, variant, alpha, rho)
    }

    constructor (alpha: real, rho: real)
      ensures State() == TestState(ArmState(0, 0.0), ArmState(0, 0.0), alpha, rho)
    {
      control, variant := ArmState(0, 0.0), ArmState(0, 0.0);
      this.alpha, this.rho := alpha, rho;
    }

    method Record(arm: Arm, value: real)
      modifies this
      ensures State() == Observe(old(State()), arm, value)
    {
      var s := if arm == Control then control else variant;
      s := ArmState(s.n + 1, s.sum + value);
      if arm == Control {
        control := s;
      } else {
        variant := s;
      }
    }

    /** The number of complete pairs. */
    method Count() returns (n: nat)
      ensures n <= control.n && n <= variant.n && (n == control.n || n == variant.n)
    {
      n := if control.n < variant.n then control.n else variant.n;
    }
  }
}
