/** How near the integer weights, the distribution function and the seats come to the exact Poisson law. */
module PoissonLaw {
  import opened Numerals
  import opened Vectors
  import opened Sortition

  /** The expectation as a number of seats. */
  function Rate(lam: nat): real { lam as real / 1000000000.0 }

  /** The Poisson weight `x^k / k!`, up to the factor that cancels. */
  function Exact(x: real, k: nat): real {
    if k == 0 then 1.0 else Exact(x, k - 1) * Rise(x, k)
  }

  /** The factor from one weight up to the next, and back down. */
  function Rise(x: real, k: nat): real requires k > 0 { x / k as real }
  function Fall(x: real, k: nat): real requires x > 0.0 { k as real / x }

  lemma {:induction false} ExactPositive(x: real, k: nat)
    requires x > 0.0
    ensures Exact(x, k) > 0.0
  {
    if k > 0 {
      ExactPositive(x, k - 1);
      PositiveProduct(Exact(x, k - 1), Rise(x, k));
    }
  }

  lemma PositiveProduct(x: real, y: real)
    requires x > 0.0 && y > 0.0
    ensures x * y > 0.0
  {}

  lemma {:induction false} RealProduct(a: nat, b: nat)
    ensures (a * b) as real == a as real * b as real
  {
    if a > 0 {
      RealProduct(a - 1, b);
      assert a * b == (a - 1) * b + b;
    }
  }

  // ---------------------------------------------------------------- one step

  /** `w'` is `w s` rounded down. */
  predicate Floored(w: real, s: real, w': real) { w' <= w * s < w' + 1.0 }

  lemma FloorStep(w: nat, num: nat, den: nat, w': nat)
    requires den > 0 && w' * den <= w * num < w' * den + den
    ensures Floored(w as real, num as real / den as real, w' as real)
  {
    RealProduct(w, num);
    RealProduct(w', den);
    var x, d := w as real * num as real, den as real;
    assert w' as real * d <= x < w' as real * d + d;
    DivideThrough(w' as real, x, d);
    assert w as real * (num as real / d) == x / d;
  }

  lemma DivideThrough(y: real, x: real, d: real)
    requires d > 0.0 && y * d <= x < y * d + d
    ensures y <= x / d < y + 1.0
  {
    var q := x / d;
    assert q * d == x;
    if q >= y + 1.0 { ProductMonotone(d, y + 1.0, q); }
    if q < y { PositiveProduct(y - q, d); }
  }

  lemma NestedFloors(w: nat, lam: nat, n: nat)
    requires n > 0
    ensures var w' := Quot(Quot(Times(w, lam), FP), n);
      w' * (n * FP) <= w * lam < w' * (n * FP) + n * FP
  {
    var q := Quot(Times(w, lam), FP);
    var w' := Quot(q, n);
    MulMonotone(FP, w' * n, q);
    MulMonotone(FP, q + 1, w' * n + n);
    MulAssociates(w', n, FP);
  }

  lemma StepAbove(lam: nat, k: nat)
    requires lam > 0 && k >= Mode(lam)
    ensures Floored(Weight(lam, k) as real, Rise(Rate(lam), k + 1), Weight(lam, k + 1) as real)
    ensures 0.0 <= Rise(Rate(lam), k + 1) <= 1.0
  {
    hide Quot, Weight;
    var w := Weight(lam, k);
    WeightAbove(lam, k);
    NestedFloors(w, lam, k + 1);
    FloorStep(w, lam, (k + 1) * FP, Weight(lam, k + 1));
    RealProduct(k + 1, FP);
    ModeBounds(lam);
    MulMonotone(FP, Mode(lam) + 1, k + 1);
    TwoDivisions(lam as real, 1000000000.0, (k + 1) as real);
    UnitQuotient(Rate(lam), (k + 1) as real);
  }

  lemma TwoDivisions(a: real, b: real, c: real)
    requires b > 0.0 && c > 0.0
    ensures b * c > 0.0 && a / b / c == a / (c * b)
  {
    PositiveProduct(b, c);
    var q := a / b / c;
    assert q * c == a / b && (a / b) * b == a;
    assert q * (c * b) == q * c * b;
  }

  lemma UnitQuotient(x: real, y: real)
    requires 0.0 <= x <= y && y > 0.0
    ensures 0.0 <= x / y <= 1.0
  {}

  lemma StepBelow(lam: nat, k: nat)
    requires lam > 0 && k < Mode(lam)
    ensures Rate(lam) > 0.0 && 0.0 <= Fall(Rate(lam), k + 1) <= 1.0
    ensures Floored(Weight(lam, k + 1) as real, Fall(Rate(lam), k + 1), Weight(lam, k) as real)
  {
    hide Quot, Weight;
    var w := Weight(lam, k + 1);
    WeightBelow(lam, k);
    MulAssociates(w, k + 1, FP);
    FloorStep(w, (k + 1) * FP, lam, Weight(lam, k));
    RealProduct(k + 1, FP);
    ModeBounds(lam);
    MulMonotone(FP, k + 1, Mode(lam));
    InverseRate((k + 1) as real, lam as real, 1000000000.0);
    UnitQuotient((k + 1) as real, Rate(lam));
  }

  lemma InverseRate(a: real, b: real, c: real)
    requires b > 0.0 && c > 0.0
    ensures b / c > 0.0 && a * c / b == a / (b / c)
  {
    assert (b / c) * c == b;
    var q := a / (b / c);
    assert q * (b / c) == a;
    assert q * b == q * (b / c) * c;
  }

  // ---------------------------------------------------------------- every weight

  /** `w` is the exact weight `p`, scaled so that the mode's `top` becomes 10^18, up to `error` units below. */
  predicate Near(w: real, p: real, top: real, error: real) {
    w * top <= 1000000000000000000.0 * p <= (w + error) * top
  }

  lemma NearStep(w: real, p: real, top: real, error: real, s: real, w': real, p': real, error': real)
    requires Near(w, p, top, error) && Floored(w, s, w') && 0.0 <= s <= 1.0 && top >= 0.0 && error >= 0.0
    requires p' == p * s && error' == error + 1.0
    ensures Near(w', p', top, error')
  {
    var a, a' := 1000000000000000000.0 * p, 1000000000000000000.0 * p';
    assert s * a == a';
    Below(w, top, a, s, w', a');
    Above(w + error, top, a, s, w' + error', a') by {
      Distributes(s, w, error);
      ProductMonotone(error, s, 1.0);
      assert s * (w + error) <= w' + error';
    }
  }

  lemma Below(w: real, top: real, a: real, s: real, w': real, a': real)
    requires w * top <= a && s >= 0.0 && top >= 0.0 && w' <= w * s && a' == s * a
    ensures w' * top <= a'
  {
    ProductMonotone(s, w * top, a);
    Regroup(w, top, s);
    ProductMonotone(top, w', w * s);
  }

  lemma Above(w: real, top: real, a: real, s: real, w': real, a': real)
    requires a <= w * top && s >= 0.0 && top >= 0.0 && s * w <= w' && a' == s * a
    ensures a' <= w' * top
  {
    ProductMonotone(s, a, w * top);
    Regroup(w, top, s);
    ProductMonotone(top, s * w, w');
  }

  lemma Regroup(w: real, top: real, s: real)
    ensures s * (w * top) == top * (w * s)
  {}

  function Steps(lam: nat, k: nat): nat { if k >= Mode(lam) then k - Mode(lam) else Mode(lam) - k }

  /** THE WEIGHTS ARE POISSON'S. The weight of the mode is 10^18, and every weight, above the mode and below, in
      the window and out, is to it as `x^k / k!` is to `x^m / m!`, rounded down by at most one unit a step. */
  lemma WeightsArePoisson(lam: nat, k: nat)
    requires lam > 0
    ensures Weight(lam, Mode(lam)) == 1_000_000_000_000_000_000
    ensures Near(Weight(lam, k) as real, Exact(Rate(lam), k), Exact(Rate(lam), Mode(lam)), Steps(lam, k) as real)
  {
    if k >= Mode(lam) { PoissonAbove(lam, k); } else { PoissonBelow(lam, k); }
  }

  /** What a weight is against the mode's. */
  predicate NearMode(lam: nat, k: nat) requires lam > 0 {
    Near(Weight(lam, k) as real, Exact(Rate(lam), k), Exact(Rate(lam), Mode(lam)), Steps(lam, k) as real)
  }

  lemma AtMode(lam: nat)
    requires lam > 0
    ensures NearMode(lam, Mode(lam))
  {}

  lemma ExactStep(x: real, k: nat)
    ensures Exact(x, k + 1) == Exact(x, k) * Rise(x, k + 1)
  {}

  lemma NextAbove(lam: nat, k: nat)
    requires lam > 0 && k >= Mode(lam) && NearMode(lam, k)
    ensures NearMode(lam, k + 1)
  {
    hide Near, Floored, Weight, Exact, Quot, Mode, Rate, Rise, Fall;
    var x, m := Rate(lam), Mode(lam);
    RatePositive(lam);
    ExactPositive(x, m);
    StepAbove(lam, k);
    ExactStep(x, k);
    NearStep(
      Weight(lam, k) as real, Exact(x, k), Exact(x, m), Steps(lam, k) as real, Rise(x, k + 1),
      Weight(lam, k + 1) as real, Exact(x, k + 1), Steps(lam, k + 1) as real);
  }

  lemma RatePositive(lam: nat)
    requires lam > 0
    ensures Rate(lam) > 0.0
  {}

  lemma NextBelow(lam: nat, k: nat)
    requires lam > 0 && k < Mode(lam) && NearMode(lam, k + 1)
    ensures NearMode(lam, k)
  {
    hide Near, Floored, Weight, Exact, Quot, Mode, Rate, Rise, Fall;
    var x, m := Rate(lam), Mode(lam);
    RatePositive(lam);
    ExactPositive(x, m);
    StepBelow(lam, k);
    ExactStep(x, k);
    StepBack(Exact(x, k), x, k + 1);
    NearStep(
      Weight(lam, k + 1) as real, Exact(x, k + 1), Exact(x, m), Steps(lam, k + 1) as real, Fall(x, k + 1),
      Weight(lam, k) as real, Exact(x, k), Steps(lam, k) as real);
  }

  lemma {:induction false} PoissonAbove(lam: nat, k: nat)
    requires lam > 0 && k >= Mode(lam)
    ensures NearMode(lam, k)
    decreases k
  {
    hide NearMode, Mode;
    if k == Mode(lam) {
      AtMode(lam);
    } else {
      PoissonAbove(lam, k - 1);
      NextAbove(lam, k - 1);
    }
  }

  lemma {:induction false} PoissonBelow(lam: nat, k: nat)
    requires lam > 0 && k <= Mode(lam)
    ensures NearMode(lam, k)
    decreases Mode(lam) - k
  {
    hide NearMode, Mode;
    if k == Mode(lam) {
      AtMode(lam);
    } else {
      PoissonBelow(lam, k + 1);
      NextBelow(lam, k);
    }
  }

  lemma UpAndBack(x: real, k: nat)
    requires x > 0.0 && k > 0
    ensures Rise(x, k) * Fall(x, k) == 1.0
  {
    var n := k as real;
    assert Rise(x, k) * n == x && Fall(x, k) * x == n;
    Inverses(Rise(x, k), Fall(x, k), x, n);
  }

  lemma StepBack(p: real, x: real, k: nat)
    requires x > 0.0 && k > 0
    ensures p * Rise(x, k) * Fall(x, k) == p
  {
    hide Rise, Fall;
    UpAndBack(x, k);
    UnitFactor(p, Rise(x, k), Fall(x, k));
  }

  lemma UnitFactor(p: real, u: real, v: real)
    requires u * v == 1.0
    ensures p * u * v == p
  {
    var one := u * v;
    assert p * one == p;
  }

  lemma Inverses(u: real, v: real, x: real, n: real)
    requires x > 0.0 && u * n == x && v * x == n
    ensures u * v == 1.0
  {
    Associates(u, v, x);
    assert (u * v) * x == x;
    assert (u * v - 1.0) * x == 0.0;
  }

  // ---------------------------------------------------------------- sums of weights

  function ExactSum(x: real, n: nat): real { if n == 0 then 0.0 else ExactSum(x, n - 1) + Exact(x, n - 1) }

  /** From here on every weight is zero. */
  function Reach(lam: nat): nat { 2 * Mode(lam) + 61 }

  /** What all roundings together can amount to, in units. */
  function Slack(lam: nat): nat { Times(Reach(lam) + 1, Reach(lam) + 1) }

  lemma NearPlus(w: real, p: real, error: real, w': real, p': real, error': real, top: real, bound: real)
    requires Near(w, p, top, error) && Near(w', p', top, error') && top >= 0.0 && error + error' <= bound
    ensures Near(w + w', p + p', top, bound)
  {
    ProductMonotone(top, error + error', bound);
    Distributes(top, w, w');
    Distributes(top, w + error, w' + error');
    Distributes(top, w + w', error + error');
    Distributes(top, w + w', bound);
  }

  lemma NoneNear(top: real)
    ensures Near(0.0, 0.0, top, 0.0)
  {}

  lemma CumulativeIs(lam: nat, k: nat)
    requires lam > 0
    ensures Cumulative(Weights(lam), k + 1) == Cumulative(Weights(lam), k) + Weight(lam, k)
  {
    CumulativeStep(Weights(lam), k);
    if k >= Window(lam) { ZeroStaysZero(lam, Window(lam), k); }
  }

  lemma {:induction false} SumsNear(lam: nat, n: nat)
    requires lam > 0 && n <= Reach(lam)
    ensures Near(Cumulative(Weights(lam), n) as real, ExactSum(Rate(lam), n), Exact(Rate(lam), Mode(lam)), (n * Reach(lam)) as real)
  {
    hide Near, Weights, Weight, Exact, Rate, Mode;
    var x, top, reach := Rate(lam), Exact(Rate(lam), Mode(lam)), Reach(lam);
    RatePositive(lam);
    ExactPositive(x, Mode(lam));
    if n == 0 {
      assert Cumulative(Weights(lam), 0) == 0;
      NoneNear(top);
    } else {
      SumsNear(lam, n - 1);
      WeightsArePoisson(lam, n - 1);
      CumulativeIs(lam, n - 1);
      assert (n - 1) * reach + reach == n * reach;
      NearPlus(
        Cumulative(Weights(lam), n - 1) as real, ExactSum(x, n - 1), ((n - 1) * reach) as real,
        Weight(lam, n - 1) as real, Exact(x, n - 1), Steps(lam, n - 1) as real, top, (n * reach) as real);
    }
  }

  lemma RateBounds(lam: nat)
    ensures Mode(lam) as real <= Rate(lam) < Mode(lam) as real + 1.0
  {
    ModeBounds(lam);
  }

  /** Past twice the mode the exact weights at least halve. */
  lemma ExactHalves(lam: nat, k: nat)
    requires lam > 0 && k >= Reach(lam)
    ensures 0.0 < 2.0 * Exact(Rate(lam), k + 1) <= Exact(Rate(lam), k)
  {
    hide Exact, Rate, Rise, Mode;
    var x := Rate(lam);
    RatePositive(lam);
    RateBounds(lam);
    ExactPositive(x, k);
    ExactPositive(x, k + 1);
    ExactStep(x, k);
    HalfStep(x, k + 1);
    ProductMonotone(Exact(x, k), Rise(x, k + 1), 0.5);
  }

  lemma HalfStep(x: real, k: nat)
    requires k > 0 && 0.0 <= 2.0 * x <= k as real
    ensures Rise(x, k) <= 0.5
  {
    var r := Rise(x, k);
    assert r * k as real == x;
    if r > 0.5 { PositiveProduct(r - 0.5, k as real); }
  }

  lemma {:induction false} TailSmall(lam: nat, n: nat)
    requires lam > 0 && n >= Reach(lam)
    ensures var x, from := Rate(lam), Reach(lam);
      ExactSum(x, n) + 2.0 * Exact(x, n) <= ExactSum(x, from) + 2.0 * Exact(x, from)
    decreases n
  {
    hide Exact, Rate;
    if n > Reach(lam) {
      TailSmall(lam, n - 1);
      ExactHalves(lam, n - 1);
    }
  }

  lemma {:induction false} SumGrows(x: real, i: nat, n: nat)
    requires x > 0.0 && i <= n
    ensures 0.0 <= ExactSum(x, i) <= ExactSum(x, n)
    ensures n > 0 ==> ExactSum(x, n) > 0.0
    decreases n
  {
    if n > 0 {
      ExactPositive(x, n - 1);
      SumGrows(x, if i < n then i else n - 1, n - 1);
    }
  }

  lemma {:induction false} NothingAfter(lam: nat, n: nat)
    requires lam > 0 && n >= Reach(lam)
    ensures Weight(lam, n) == 0 && Cumulative(Weights(lam), n) == Sortition.Sum(Weights(lam))
  {
    WindowCloses(lam);
    ZeroStaysZero(lam, Reach(lam), n);
    assert Weights(lam)[..|Weights(lam)|] == Weights(lam);
  }

  lemma NearTail(w: real, p: real, top: real, error: real, q: real, small: real, p': real, bound: real)
    requires Near(w, p, top, error) && Near(0.0, q, top, small) && p <= p' <= p + 2.0 * q
    requires top >= 0.0 && error + 2.0 * small <= bound
    ensures Near(w, p', top, bound)
  {
    Distributes(top, w + error, 2.0 * small);
    ProductMonotone(top, w + error + 2.0 * small, w + bound);
  }

  /** The sum of the first `n` weights, for any `n`, against the exact sum. */
  lemma SumNear(lam: nat, n: nat)
    requires lam > 0
    ensures Near(Cumulative(Weights(lam), n) as real, ExactSum(Rate(lam), n), Exact(Rate(lam), Mode(lam)), Slack(lam) as real)
  {
    hide Near, Weights, Weight, Exact, Rate, Mode, Cumulative, ExactSum;
    var x, top, reach := Rate(lam), Exact(Rate(lam), Mode(lam)), Reach(lam);
    var from := if n <= reach then n else reach;
    RatePositive(lam);
    ExactPositive(x, Mode(lam));
    SumsNear(lam, from);
    MulMonotone(reach, from, reach);
    SlackCovers(reach);
    if n <= reach {
      NoneNear(top);
      NearPlus(Cumulative(Weights(lam), n) as real, ExactSum(x, n), (n * reach) as real, 0.0, 0.0, 0.0, top, Slack(lam) as real);
    } else {
      NothingAfter(lam, reach);
      NothingAfter(lam, n);
      WeightsArePoisson(lam, reach);
      ExactPositive(x, n);
      TailSmall(lam, n);
      SumGrows(x, reach, n);
      NearTail(
        Cumulative(Weights(lam), reach) as real, ExactSum(x, reach), top, (reach * reach) as real,
        Exact(x, reach), Steps(lam, reach) as real, ExactSum(x, n), Slack(lam) as real);
    }
  }

  lemma SlackCovers(r: nat)
    ensures Times(r + 1, r + 1) >= r * r + 2 * r
  {
    assert (r + 1) * (r + 1) == r * r + 2 * r + 1;
  }

  // ---------------------------------------------------------------- the distribution function and the seats

  /** `P(X < n)` for a Poisson variable that stops before `last`. */
  function PoissonBefore(lam: nat, n: nat, last: nat): (f: real)
    requires lam > 0 && last > 0
  {
    RatePositive(lam);
    SumGrows(Rate(lam), 0, last);
    ExactSum(Rate(lam), n) / ExactSum(Rate(lam), last)
  }

  lemma Within(f: real, part: real, whole: real, c: real, t: real, top: real, slack: real)
    requires Near(c, part, top, slack) && Near(t, whole, top, slack) && top > 0.0 && slack >= 0.0
    requires f * whole == part && 0.0 <= f <= 1.0
    ensures c - slack <= f * t <= c + slack
  {
    var aw, ap := 1000000000000000000.0 * whole, 1000000000000000000.0 * part;
    assert f * aw == ap;
    FractionAtMost(f, t, top, aw, ap, c + slack);
    FractionAtLeast(f, t + slack, top, aw, ap, c);
    Distributes(f, t, slack);
    ProductMonotone(slack, f, 1.0);
  }

  lemma FractionAtMost(f: real, t: real, top: real, aw: real, ap: real, z: real)
    requires t * top <= aw && f * aw == ap && ap <= z * top && f >= 0.0 && top > 0.0
    ensures f * t <= z
  {
    ProductMonotone(f, t * top, aw);
    Regroup(t, top, f);
    CancelTop(t * f, z, top);
  }

  lemma FractionAtLeast(f: real, t: real, top: real, aw: real, ap: real, z: real)
    requires aw <= t * top && f * aw == ap && z * top <= ap && f >= 0.0 && top > 0.0
    ensures z <= f * t
  {
    ProductMonotone(f, aw, t * top);
    Regroup(t, top, f);
    assert top * (t * f) == (t * f) * top;
    CancelTop(z, t * f, top);
  }

  lemma CancelTop(y: real, z: real, top: real)
    requires top > 0.0 && top * y <= z * top
    ensures y <= z
  {
    if y > z { PositiveProduct(y - z, top); }
  }

  /** The distribution function times the total, over the fixed-point one. */
  lemma CdfTimesTotal(lam: nat, j: nat)
    requires lam > 0
    ensures var c, t, p := Cumulative(Weights(lam), j + 1) as real, Sortition.Sum(Weights(lam)) as real, Cdf(lam, j) as real;
      t >= 1000000000000000000.0 && p * t <= 1000000000.0 * c <= (p + 1.0) * t
  {
    hide Weights, Cumulative, Sortition.Sum, Share, Cdf;
    CdfIsShare(lam, j);
    CumulativeWithin(Weights(lam), j + 1);
    ShareTimesTotal(Cumulative(Weights(lam), j + 1), Sortition.Sum(Weights(lam)));
  }

  lemma CdfIsShare(lam: nat, j: nat)
    requires lam > 0
    ensures Sortition.Sum(Weights(lam)) >= 1_000_000_000_000_000_000
    ensures Cdf(lam, j) == Share(Cumulative(Weights(lam), j + 1), Sortition.Sum(Weights(lam)))
  {
    hide Weights, Cumulative, Sortition.Sum, Share;
    TotalPositive(lam);
  }

  lemma ShareTimesTotal(c: nat, t: nat)
    requires c <= t && t > 0
    ensures Share(c, t) as real * t as real <= 1000000000.0 * c as real <= (Share(c, t) as real + 1.0) * t as real
  {
    var q := Quot(c * FP, t);
    MulMonotone(FP, c, t);
    if q > FP { MulMonotone(t, FP + 1, q); }
    RealProduct(q, t);
    RealProduct(q + 1, t);
  }

  lemma CumulativeWithin(ws: seq<nat>, n: nat)
    ensures Cumulative(ws, n) <= Sortition.Sum(ws)
  {
    SumPrefixMonotone(ws, if n < |ws| then n else |ws|, |ws|);
    assert ws[..|ws|] == ws;
  }

  /** A distribution value is within its last digit and `slack` parts in 10^9 of that of the exact law. */
  predicate CloseTo(p: real, f: real, slack: real) {
    p - slack / 1000000000.0 <= 1000000000.0 * f <= p + 1.0 + slack / 1000000000.0
  }

  lemma CloseToRatio(p: real, f: real, c: real, t: real, slack: real)
    requires c - slack <= f * t <= c + slack && p * t <= 1000000000.0 * c <= (p + 1.0) * t
    requires t >= 1000000000000000000.0 && slack >= 0.0
    ensures CloseTo(p, f, slack)
  {
    Parts(p, f, c, t, slack, slack / 1000000000.0);
  }

  function Over(x: real, t: real): real { x * t }

  lemma OverPlus(x: real, y: real, t: real)
    ensures Over(x + y, t) == Over(x, t) + Over(y, t)
  {}

  lemma OverScaled(x: real, t: real)
    ensures Over(1000000000.0 * x, t) == 1000000000.0 * Over(x, t)
  {}

  lemma OverOrder(x: real, y: real, t: real)
    requires t > 0.0 && Over(x, t) <= Over(y, t)
    ensures x <= y
  {
    if x > y { PositiveProduct(x - y, t); }
  }

  lemma OverLarge(e: real, t: real)
    requires e >= 0.0 && t >= 1000000000000000000.0
    ensures Over(e, t) >= 1000000000000000000.0 * e
  {
    ProductMonotone(e, 1000000000000000000.0, t);
  }

  lemma Parts(p: real, f: real, c: real, t: real, slack: real, e: real)
    requires c - slack <= Over(f, t) <= c + slack && Over(p, t) <= 1000000000.0 * c <= Over(p + 1.0, t)
    requires t >= 1000000000000000000.0 && e >= 0.0 && slack == 1000000000.0 * e
    ensures p - e <= 1000000000.0 * f <= p + 1.0 + e
  {
    hide Over;
    OverLarge(e, t);
    OverScaled(f, t);
    OverPlus(1000000000.0 * f, e, t);
    OverOrder(p, 1000000000.0 * f + e, t);
    OverPlus(p + 1.0, e, t);
    OverOrder(1000000000.0 * f, p + 1.0 + e, t);
  }

  lemma PoissonFraction(lam: nat, n: nat, last: nat)
    requires lam > 0 && n <= last && last > 0
    ensures var f := PoissonBefore(lam, n, last);
      0.0 <= f <= 1.0 && f * ExactSum(Rate(lam), last) == ExactSum(Rate(lam), n)
  {
    RatePositive(lam);
    SumGrows(Rate(lam), n, last);
    SumGrows(Rate(lam), 0, last);
    UnitQuotient(ExactSum(Rate(lam), n), ExactSum(Rate(lam), last));
  }

  /** THE DISTRIBUTION FUNCTION IS POISSON'S. For every expectation and every count it is the exact law's
      `P(X <= j)`, with the tail cut off anywhere past the reach, to within one unit of rounding and
      `(2 m + 62)^2` parts in 10^9 of a unit. */
  lemma CdfIsPoisson(lam: nat, j: nat, last: nat)
    requires lam > 0 && last > j && last >= Reach(lam)
    ensures CloseTo(Cdf(lam, j) as real, PoissonBefore(lam, j + 1, last), Slack(lam) as real)
  {
    hide Near, Weights, Exact, ExactSum, Rate, Mode, Cumulative, Sortition.Sum, Cdf, PoissonBefore, CloseTo;
    var x, top := Rate(lam), Exact(Rate(lam), Mode(lam));
    var f := PoissonBefore(lam, j + 1, last);
    RatePositive(lam);
    ExactPositive(x, Mode(lam));
    SumNear(lam, j + 1);
    SumNear(lam, last);
    NothingAfter(lam, last);
    PoissonFraction(lam, j + 1, last);
    var c, t := Cumulative(Weights(lam), j + 1) as real, Sortition.Sum(Weights(lam)) as real;
    Within(f, ExactSum(x, j + 1), ExactSum(x, last), c, t, top, Slack(lam) as real);
    CdfTimesTotal(lam, j);
    CloseToRatio(Cdf(lam, j) as real, f, c, t, Slack(lam) as real);
  }

  /** THE SEATS ARE POISSON'S QUANTILES. A draw at or above `P(X <= j)` by the slack earns more than `j` seats, if
      the cap allows, and one below it by a unit and the slack earns at most `j`. */
  lemma SeatsArePoisson(v: nat, lam: nat, max: nat, j: nat, last: nat)
    requires lam > 0 && j < max && last > j && last >= Reach(lam)
    ensures var f, e := 1000000000.0 * PoissonBefore(lam, j + 1, last), Slack(lam) as real / 1000000000.0;
      && (v as real >= f + e ==> Seats(v, lam, max) > j)
      && (v as real < f - 1.0 - e ==> Seats(v, lam, max) <= j)
  {
    hide PoissonBefore, Slack, Cdf, Seats;
    CdfIsPoisson(lam, j, last);
    var seats := Seats(v, lam, max);
    if seats <= j { CdfMonotone(lam, seats, j); }
  }

  // ---------------------------------------------------------------- the smallest expectations

  lemma FirstTwoWeights(lam: nat)
    requires 0 < lam < FP
    ensures Weight(lam, 0) == 1_000_000_000_000_000_000 && Weight(lam, 1) == 1_000_000_000 * lam
  {
    QuotUnique(lam, FP, 0);
    QuotUnique(1_000_000_000_000_000_000 * lam, FP, 1_000_000_000 * lam);
    QuotUnique(1_000_000_000 * lam, 1, 1_000_000_000 * lam);
    WeightAbove(lam, 0);
  }

  lemma TwoWeightsInTotal(lam: nat)
    requires 0 < lam < FP
    ensures Sortition.Sum(Weights(lam)) >= Weight(lam, 0) + Weight(lam, 1) && Cumulative(Weights(lam), 1) == Weight(lam, 0)
  {
    FirstTwoWeights(lam);
    CumulativeIs(lam, 0);
    CumulativeIs(lam, 1);
    assert Cumulative(Weights(lam), 0) == 0;
    CumulativeWithin(Weights(lam), 2);
  }

  /** An account that expects less than one seat has one as soon as its draw reaches `1 / (1 + x)`. */
  lemma SmallStakesWinSeats(v: nat, lam: nat, cap: nat)
    requires 0 < lam < FP && cap >= 1 && v * (FP + lam) >= FP * FP
    ensures Seats(v, lam, cap) >= 1
  {
    TotalPositive(lam);
    FirstTwoWeights(lam);
    TwoWeightsInTotal(lam);
    var t := Sortition.Sum(Weights(lam));
    hide Weights, Sortition.Sum, Cumulative, Weight;
    MulMonotone(v + 1, 1_000_000_000 * (FP + lam), t);
    MulAssociates(v + 1, 1_000_000_000, FP + lam);
    Distribute3(v, FP + lam);
    QuotBelow(1_000_000_000_000_000_000 * FP, v + 1, t);
    assert Cdf(lam, 0) <= v;
  }

  lemma Distribute3(v: nat, d: nat)
    requires v * d >= FP * FP && d > 0
    ensures (v + 1) * 1_000_000_000 * d > 1_000_000_000_000_000_000 * FP
  {
    assert (v + 1) * 1_000_000_000 * d == 1_000_000_000 * (v * d) + 1_000_000_000 * d;
  }
}
