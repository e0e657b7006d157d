/** What the concentration and community signals do to collusion: the pressure on a funnel and on an inbred
    community in closed form, who is spared, and how little mass either can gather. */
module Funnel {
  import opened Vectors
  import opened TrustGraph
  import opened DampedMatrix
  import opened Reputation

  // ---------------------------------------------------------------- inflow spread evenly

  /** Every community gives the target either nothing or one and the same positive weight, and `m` do give. */
  ghost predicate Even(inflow: Vec, w: real, m: nat) {
    w > 0.0 && m > 0 && (forall c | 0 <= c < |inflow| :: inflow[c] == 0.0 || inflow[c] == w) && Positive(inflow) == m
  }

  lemma {:induction false} EvenSum(v: Vec, w: real)
    requires w > 0.0 && forall c | 0 <= c < |v| :: v[c] == 0.0 || v[c] == w
    ensures Sum(v) == w * Positive(v) as real
  {
    if v != [] {
      EvenSum(v[..|v| - 1], w);
      Distributes(w, Positive(v[..|v| - 1]) as real, 1.0);
    }
  }

  lemma EvenSquare(x: real, w: real)
    requires x == 0.0 || x == w
    ensures Squared(x) == w * x
  {}

  lemma SquaresOfEven(v: Vec, w: real)
    requires forall c | 0 <= c < |v| :: v[c] == 0.0 || v[c] == w
    ensures Sum(Squares(v)) == w * Sum(v)
  {
    hide Sum, Squared, Squares, Scale;
    forall c | 0 <= c < |v| ensures Squares(v)[c] == Scale(w, v)[c] { EvenSquare(v[c], w); }
    assert Squares(v) == Scale(w, v);
    SumScale(w, v);
  }

  lemma Part(m: real, w: real, total: real)
    requires w > 0.0 && m > 0.0 && total == w * m
    ensures total > 0.0 && (1.0 / total) * w == 1.0 / m && (1.0 / m) * ((1.0 / total) * total) == 1.0 / m
  {
    PositiveTimes(w, m);
    var x := (1.0 / total) * w;
    assert (1.0 / total) * total == 1.0;
    assert x * m == (1.0 / total) * total;
  }

  lemma PositiveTimes(x: real, y: real)
    requires x > 0.0 && y > 0.0
    ensures x * y > 0.0
  {}

  lemma EvenShares(inflow: Vec, w: real, m: nat)
    requires Even(inflow, w, m)
    ensures Sum(inflow) > 0.0
    ensures var shares, p := Scale(1.0 / Sum(inflow), inflow), 1.0 / m as real;
      && Sum(Squares(shares)) == p
      && forall c | 0 <= c < |inflow| :: shares[c] == if inflow[c] > 0.0 then p else 0.0
  {
    hide Sum, Squares, Positive;
    var total, p := Sum(inflow), 1.0 / m as real;
    EvenSum(inflow, w);
    Part(m as real, w, total);
    var shares := Scale(1.0 / total, inflow);
    forall c | 0 <= c < |inflow| ensures shares[c] == if inflow[c] > 0.0 then p else 0.0 {
      assert inflow[c] == 0.0 || inflow[c] == w;
    }
    SquaresOfEven(shares, p);
    SumScale(1.0 / total, inflow);
  }

  /** Inflow spread evenly over `m` communities has concentration `1 / m`, and each share is `1 / m` or nothing. */
  lemma EvenSignal(g: Edges, n: nat, tag: seq<nat>, tgt: nat, k0: real, w: real, m: nat)
    requires Labels(tag, n) && k0 > 0.0 && Even(ByCommunity(tag, n, Column(g, n, tgt)), w, m)
    ensures var s, inflow, p := SignalOf(g, n, tag, tgt, k0), ByCommunity(tag, n, Column(g, n, tgt)), 1.0 / m as real;
      && s.concentration == p && s.gate == Ramp(|Vouchers(g, n, tgt)|, k0)
      && forall c | 0 <= c < n :: s.shares[c] == if inflow[c] > 0.0 then p else 0.0
  {
    EvenShares(ByCommunity(tag, n, Column(g, n, tgt)), w, m);
    hide Ramp, Column, Vouchers, Sum, Squares, Positive, ByCommunity, Even;
  }

  lemma EvenPressureIs(mu: real, p: real, gate: real, deficit: real)
    ensures mu * (p * p) * p * gate * deficit == mu * gate * deficit * (p * p * p)
  {}

  /** The pressure on such a target: `mu gate deficit / m^3` from the communities that give, none from others. */
  lemma EvenPressure(q: Settings, g: Edges, n: nat, tag: seq<nat>, ev: Evidence, i: nat, j: nat, w: real, m: nat)
    requires Sensible(q) && Shaped(n, tag, ev) && i < n && j < n && Even(ByCommunity(tag, n, Column(g, n, j)), w, m)
    ensures var p := 1.0 / m as real;
      Pressure(q, g, n, tag, ev, i, j) ==
        if ByCommunity(tag, n, Column(g, n, j))[tag[i]] > 0.0
        then q.mu * Ramp(|Vouchers(g, n, j)|, q.k0) * Deficit(q, ev, j) * (p * p * p) else 0.0
  {
    hide Ramp, Column, Vouchers, SignalOf, Penalty, Positive;
    EvenSignal(g, n, tag, j, q.k0, w, m);
    hide Even;
    EvenPressureIs(q.mu, 1.0 / m as real, Ramp(|Vouchers(g, n, j)|, q.k0), Deficit(q, ev, j));
  }

  // ---------------------------------------------------------------- a funnel

  /** All that vouch for the target sit in community `c`. */
  ghost predicate Funnelled(g: Edges, n: nat, tag: seq<nat>, tgt: nat, c: nat) requires |tag| == n {
    Vouchers(g, n, tgt) != {} && forall i: nat | i < n && Vouches(g, i, tgt) :: tag[i] == c
  }

  lemma {:induction false} OnePositive(v: Vec, c: nat)
    requires c < |v| && v[c] > 0.0 && forall k | 0 <= k < |v| && k != c :: v[k] == 0.0
    ensures Positive(v) == 1
  {
    var n := |v| - 1;
    if c < n { OnePositive(v[..n], c); } else { NonePositive(v[..n]); }
  }

  lemma {:induction false} NonePositive(v: Vec)
    requires forall k | 0 <= k < |v| :: v[k] == 0.0
    ensures Positive(v) == 0
  {
    if v != [] { NonePositive(v[..|v| - 1]); }
  }

  lemma FunnelIsEven(g: Edges, n: nat, tag: seq<nat>, tgt: nat, c: nat)
    requires Labels(tag, n) && c < n && Funnelled(g, n, tag, tgt, c)
    ensures var inflow := ByCommunity(tag, n, Column(g, n, tgt)); inflow[c] > 0.0 && Even(inflow, inflow[c], 1)
  {
    var column, inflow := Column(g, n, tgt), ByCommunity(tag, n, Column(g, n, tgt));
    var i :| i in Vouchers(g, n, tgt);
    SumInWithin(Members(tag, c), column);
    assert inflow[c] >= column[i] > 0.0;
    forall k | 0 <= k < n && k != c ensures inflow[k] == 0.0 { SumInZero(Members(tag, k), column); }
    OnePositive(inflow, c);
  }

  /** What a funnel of `count` vouchers leaves of each vouch. */
  function FunnelRate(count: nat, k0: real, mu: real): (r: real)
    requires k0 > 0.0 && mu >= 0.0
    ensures 0.0 < r <= 1.0
  {
    var a, b := count as real + k0, mu * count as real;
    NonNegativeProduct(mu, count as real);
    UnitFraction(a, a + b);
    a / (a + b)
  }

  lemma UnitFraction(a: real, b: real)
    requires 0.0 < a <= b
    ensures 0.0 < a / b <= 1.0
  {
    assert (a / b) * b == a;
  }

  lemma PenaltyOfRamp(count: nat, k0: real, mu: real)
    requires k0 > 0.0 && mu >= 0.0
    ensures mu * Ramp(count, k0) >= 0.0 && Penalty(mu * Ramp(count, k0)) == FunnelRate(count, k0, mu)
  {
    var a, n, x := count as real + k0, count as real, Ramp(count, k0);
    RampBounds(count, k0);
    NonNegativeProduct(mu, x);
    assert x * a == n;
    ClearFraction(a, mu, x, n);
  }

  lemma ClearFraction(a: real, mu: real, x: real, n: real)
    requires a > 0.0 && mu * x >= 0.0 && x * a == n
    ensures a + mu * n > 0.0 && 1.0 / (1.0 + mu * x) == a / (a + mu * n)
  {
    var d := 1.0 + mu * x;
    Associates(mu, x, a);
    assert d * a == a + mu * n;
    PositiveTimes(d, a);
    var r := 1.0 / d;
    assert r * d == 1.0;
    assert r * (d * a) == a;
  }

  /** A vouch for a target without evidence, all of whose vouchers sit in the voucher's own community, keeps
      exactly `(n + k0) / (n + k0 + mu n)` of its weight, and a vouch from another community all of it. */
  lemma FunnelPenaltyIs(q: Settings, g: Edges, n: nat, tag: seq<nat>, ev: Evidence, i: nat, j: nat, c: nat)
    requires Sensible(q) && Shaped(n, tag, ev) && i < n && j < n && c < n && q.inConcentration
    requires Funnelled(g, n, tag, j, c) && ev.inDim[j] == 0.0
    ensures FunnelPenalty(q, g, n, tag, ev, i, j) ==
      if tag[i] == c then FunnelRate(|Vouchers(g, n, j)|, q.k0, q.mu) else 1.0
  {
    hide Pressure, Funnelled, Even, Column, Vouchers;
    var inflow := ByCommunity(tag, n, Column(g, n, j));
    FunnelIsEven(g, n, tag, j, c);
    EvenPressure(q, g, n, tag, ev, i, j, inflow[c], 1);
    NoDeficit(q, ev, j);
    PenaltyOfRamp(|Vouchers(g, n, j)|, q.k0, q.mu);
    hide FunnelRate, Ramp;
    if tag[i] != c { OtherCommunities(g, n, tag, j, c, tag[i]); }
  }

  lemma OtherCommunities(g: Edges, n: nat, tag: seq<nat>, tgt: nat, c: nat, k: nat)
    requires Labels(tag, n) && k < n && k != c && Funnelled(g, n, tag, tgt, c)
    ensures ByCommunity(tag, n, Column(g, n, tgt))[k] == 0.0
  {
    SumInZero(Members(tag, k), Column(g, n, tgt));
  }

  lemma NoDeficit(q: Settings, ev: Evidence, j: nat)
    requires Sensible(q) && NonNegative(ev.inDim) && j < |ev.inDim| && ev.inDim[j] == 0.0
    ensures Deficit(q, ev, j) == 1.0
  {}

  // ---------------------------------------------------------------- who is spared

  /** Someone of `i`'s community vouches for the target. */
  ghost predicate CommunityGives(g: Edges, n: nat, tag: seq<nat>, i: nat, tgt: nat) requires |tag| == n && i < n {
    exists k: nat :: k < n && tag[k] == tag[i] && Vouches(g, k, tgt)
  }

  lemma GivingIsPositive(g: Edges, n: nat, tag: seq<nat>, i: nat, tgt: nat)
    requires Labels(tag, n) && i < n
    ensures CommunityGives(g, n, tag, i, tgt) <==> ByCommunity(tag, n, Column(g, n, tgt))[tag[i]] > 0.0
    ensures CommunityGives(g, n, tag, i, tgt) ==> Vouchers(g, n, tgt) != {}
  {
    var column, who := Column(g, n, tgt), Members(tag, tag[i]);
    if CommunityGives(g, n, tag, i, tgt) {
      var k: nat :| k < n && tag[k] == tag[i] && Vouches(g, k, tgt);
      SumInWithin(who, column);
      assert column[k] > 0.0 && k in Vouchers(g, n, tgt);
    } else {
      SumInZero(who, column);
    }
  }

  lemma ShareIsPositive(g: Edges, n: nat, tag: seq<nat>, i: nat, tgt: nat, k0: real)
    requires Labels(tag, n) && i < n && k0 > 0.0
    ensures SignalOf(g, n, tag, tgt, k0).shares[tag[i]] > 0.0 <==> CommunityGives(g, n, tag, i, tgt)
  {
    hide Sum, Squares, Ramp, Column, Vouchers, CommunityGives;
    var inflow := ByCommunity(tag, n, Column(g, n, tgt));
    GivingIsPositive(g, n, tag, i, tgt);
    InflowNonNegative(g, n, tag, tgt);
    var total := Sum(inflow);
    if total > 0.0 { ScaledSign(1.0 / total, inflow[tag[i]]); }
  }

  lemma ScaledSign(a: real, x: real)
    requires a > 0.0
    ensures a * x > 0.0 <==> x > 0.0
  {
    if x > 0.0 { PositiveTimes(a, x); }
    if x <= 0.0 { ProductMonotone(a, x, 0.0); }
  }

  lemma PositiveIs(x: real, y: real, z: real)
    requires x > 0.0 && y > 0.0 && z == x * y
    ensures z > 0.0
  {}

  lemma FiveFactors(mu: real, conc: real, dom: real, gate: real, deficit: real)
    requires mu >= 0.0 && dom >= 0.0 && deficit > 0.0 && (dom > 0.0 ==> conc > 0.0 && gate > 0.0)
    ensures mu * (conc * conc) * dom * gate * deficit == 0.0 <==> mu == 0.0 || dom == 0.0
  {
    var two := conc * conc;
    var three := mu * two;
    var four := three * dom;
    var five := four * gate;
    if mu > 0.0 && dom > 0.0 {
      PositiveIs(conc, conc, two);
      PositiveIs(mu, two, three);
      PositiveIs(three, dom, four);
      PositiveIs(four, gate, five);
      PositiveIs(five, deficit, five * deficit);
    } else if mu == 0.0 {
      assert three == 0.0;
    } else {
      assert four == 0.0;
    }
  }

  /** The signal spares a vouch exactly if its weight is zero or nobody of the voucher's community vouches for the
      target, the voucher included. */
  lemma FunnelSparesExactly(q: Settings, g: Edges, n: nat, tag: seq<nat>, ev: Evidence, i: nat, j: nat)
    requires Sensible(q) && Shaped(n, tag, ev) && i < n && j < n && q.inConcentration
    ensures FunnelPenalty(q, g, n, tag, ev, i, j) == 1.0 <==> q.mu == 0.0 || !CommunityGives(g, n, tag, i, j)
  {
    hide SignalOf, CommunityGives, Vouchers, Positive, Penalty, Deficit;
    var s := SignalOf(g, n, tag, j, q.k0);
    SignalBounds(g, n, tag, j, q.k0);
    GivingIsPositive(g, n, tag, i, j);
    ShareIsPositive(g, n, tag, i, j, q.k0);
    if Vouchers(g, n, j) != {} { PositiveReciprocal(Positive(s.shares)); }
    FiveFactors(q.mu, s.concentration, s.shares[tag[i]], s.gate, Deficit(q, ev, j));
    PenaltyIsFraction(Pressure(q, g, n, tag, ev, i, j));
  }

  lemma PositiveReciprocal(m: nat)
    requires m > 0
    ensures 1.0 / m as real > 0.0
  {}

  // ---------------------------------------------------------------- what a funnel delivers

  /** A funnel onto an account without evidence: its row takes at most the funnel's rate from any account. */
  lemma FunnelRows(q: Settings, g: Edges, n: nat, tag: seq<nat>, ev: Evidence, i: nat, tgt: nat, c: nat)
    requires Sensible(q) && Shaped(n, tag, ev) && NonNegativeWeights(g) && q.damping && q.inConcentration
    requires i < n && tgt < n && c < n && Funnelled(g, n, tag, tgt, c) && ev.inDim[tgt] == 0.0
    ensures Vouches(g, i, tgt) ==> Factor(q, g, n, tag, ev, i, tgt) <= FunnelRate(|Vouchers(g, n, tgt)|, q.k0, q.mu)
    ensures SumIn({tgt}, DampedRow(q, g, n, tag, ev, i)) <=
      if Vouches(g, i, tgt) then FunnelRate(|Vouchers(g, n, tgt)|, q.k0, q.mu) else 0.0
  {
    hide Factor, FunnelRate, DampedRow, FunnelPenalty, SumIn;
    if Vouches(g, i, tgt) {
      FunnelPenaltyIs(q, g, n, tag, ev, i, tgt, c);
      FactorParts(q, g, n, tag, ev, i, tgt);
      RowKeeps(q, g, n, tag, ev, i, {tgt}, FunnelRate(|Vouchers(g, n, tgt)|, q.k0, q.mu));
    } else {
      RowKeeps(q, g, n, tag, ev, i, {tgt}, 0.0);
    }
  }

  lemma SoleWeight(g: Edges, n: nat, i: nat, tgt: nat)
    requires i < n && tgt < n && Vouches(g, i, tgt) && forall j: nat | j < n && j != tgt :: (i, j) !in g
    ensures Sum(Weights(g, n, i)) == g[(i, tgt)]
  {
    var w := Weights(g, n, i);
    SumSplits({tgt}, w, n);
    SumInOne(tgt, w);
    SumInZero(Others({tgt}, n), w);
  }

  /** And a feeder that vouches for nothing else, gets no vouch back and has no second penalty delivers exactly that. */
  lemma FeederDelivers(q: Settings, g: Edges, n: nat, tag: seq<nat>, ev: Evidence, i: nat, tgt: nat)
    requires Sensible(q) && Shaped(n, tag, ev) && q.damping && q.inConcentration && !q.community
    requires i < n && tgt < n && Funnelled(g, n, tag, tgt, tag[i]) && ev.inDim[tgt] == 0.0
    requires Vouches(g, i, tgt) && (forall j: nat | j < n && j != tgt :: (i, j) !in g)
    requires (tgt, i) !in g && OutNeighbours(g, i) * OutNeighbours(g, tgt) - {i, tgt} == {}
    ensures DampedRow(q, g, n, tag, ev, i)[tgt] == FunnelRate(|Vouchers(g, n, tgt)|, q.k0, q.mu)
  {
    hide FunnelRate, FunnelPenalty, Independence, Factor, OutNeighbours, Sum, Funnelled;
    SoleWeight(g, n, i, tgt);
    FunnelPenaltyIs(q, g, n, tag, ev, i, tgt, tag[i]);
    IndependenceBounds(g, i, tgt, BETA, GAMMA);
    FactorParts(q, g, n, tag, ev, i, tgt);
    Whole(g[(i, tgt)], Factor(q, g, n, tag, ev, i, tgt));
  }

  lemma Whole(w: real, f: real)
    requires w > 0.0
    ensures w * f / w == f
  {}

  lemma AllGifts(s: set<nat>, m: Matrix, t: Vec, who: set<nat>)
    requires Square(m, |t|)
    ensures Inside(s, m, t) + Outside(s, m, t) == SumIn(who, Gifts(s, m, t)) + SumIn(Others(who, |t|), Gifts(s, m, t))
  {
    SumSplits(s, Gifts(s, m, t), |t|);
    SumSplits(who, Gifts(s, m, t), |t|);
  }

  /** What an unanchored set gets in one step, if only `who` give to it and each at most a share `r`. */
  lemma StepFrom(s: set<nat>, who: set<nat>, alpha: real, m: Matrix, p: Vec, t: Vec, r: real)
    requires Weight(alpha) && Square(m, |p|) && |t| == |p| && NonNegative(t) && NoAnchor(s, p)
    requires forall i | 0 <= i < |m| :: SumIn(s, m[i]) <= if i in who then r else 0.0
    ensures SumIn(s, Next(alpha, m, p, t)) <= (1.0 - alpha) * (r * SumIn(who, t))
  {
    hide Next, Sum, SumIn;
    NextInto(s, alpha, m, p, t);
    AllGifts(s, m, t, who);
    GiftsAtMost(s, who, m, t, r);
    GiftsAtMost(s, Others(who, |t|), m, t, 0.0);
    ProductMonotone(1.0 - alpha, Inside(s, m, t) + Outside(s, m, t), r * SumIn(who, t));
  }

  /** A FUNNEL HOLDS LITTLE. An account without evidence whose vouchers all sit in one community gets in each step
      at most `(1 - alpha) (n + k0) / (n + k0 + mu n)` of what its vouchers held, and never holds more than that. */
  lemma FunnelHoldsLittle(
    q: Settings, g: Edges, n: nat, tag: seq<nat>, ev: Evidence, tgt: nat, c: nat, alpha: real, p: Vec, steps: nat
  )
    requires Sensible(q) && Shaped(n, tag, ev) && NonNegativeWeights(g) && q.damping && q.inConcentration
    requires tgt < n && c < n && Funnelled(g, n, tag, tgt, c) && ev.inDim[tgt] == 0.0
    requires Weight(alpha) && |p| == n && Distribution(p) && p[tgt] == 0.0
    ensures var m, r := Damped(q, g, n, tag, ev), FunnelRate(|Vouchers(g, n, tgt)|, q.k0, q.mu);
      && Iterate(alpha, m, p, steps + 1)[tgt] <= (1.0 - alpha) * (r * SumIn(Vouchers(g, n, tgt), Iterate(alpha, m, p, steps)))
      && Iterate(alpha, m, p, steps)[tgt] <= (1.0 - alpha) * r
  {
    hide Damped, DampedRow, Distribution, Next, SumIn, Sum, FunnelRate, Vouchers, Funnelled;
    FunnelStep(q, g, n, tag, ev, tgt, c, alpha, p, steps);
    FunnelAlways(q, g, n, tag, ev, tgt, c, alpha, p, steps);
  }

  lemma FunnelStep(
    q: Settings, g: Edges, n: nat, tag: seq<nat>, ev: Evidence, tgt: nat, c: nat, alpha: real, p: Vec, steps: nat
  )
    requires Sensible(q) && Shaped(n, tag, ev) && NonNegativeWeights(g) && q.damping && q.inConcentration
    requires tgt < n && c < n && Funnelled(g, n, tag, tgt, c) && ev.inDim[tgt] == 0.0
    requires Weight(alpha) && |p| == n && Distribution(p) && p[tgt] == 0.0
    ensures var m, r := Damped(q, g, n, tag, ev), FunnelRate(|Vouchers(g, n, tgt)|, q.k0, q.mu);
      Iterate(alpha, m, p, steps + 1)[tgt] <= (1.0 - alpha) * (r * SumIn(Vouchers(g, n, tgt), Iterate(alpha, m, p, steps)))
  {
    hide DampedRow, Distribution, Next, SumIn, Sum, FunnelRate, Funnelled;
    var m, r, who := Damped(q, g, n, tag, ev), FunnelRate(|Vouchers(g, n, tgt)|, q.k0, q.mu), Vouchers(g, n, tgt);
    DampedIsSubstochastic(q, g, n, tag, ev);
    forall i | 0 <= i < |m| ensures SumIn({tgt}, m[i]) <= if i in who then r else 0.0 { FunnelRows(q, g, n, tag, ev, i, tgt, c); }
    IterateIsDistribution(alpha, m, p, steps);
    var t := Iterate(alpha, m, p, steps);
    assert NonNegative(t) by { DistributionParts(t); }
    StepFrom({tgt}, who, alpha, m, p, t, r);
    SumInOne(tgt, Next(alpha, m, p, t));
  }

  lemma DistributionParts(t: Vec)
    requires Distribution(t)
    ensures NonNegative(t) && Sum(t) == 1.0
  {}

  lemma FunnelAlways(
    q: Settings, g: Edges, n: nat, tag: seq<nat>, ev: Evidence, tgt: nat, c: nat, alpha: real, p: Vec, steps: nat
  )
    requires Sensible(q) && Shaped(n, tag, ev) && NonNegativeWeights(g) && q.damping && q.inConcentration
    requires tgt < n && c < n && Funnelled(g, n, tag, tgt, c) && ev.inDim[tgt] == 0.0
    requires Weight(alpha) && |p| == n && Distribution(p) && p[tgt] == 0.0
    ensures var m, r := Damped(q, g, n, tag, ev), FunnelRate(|Vouchers(g, n, tgt)|, q.k0, q.mu);
      Iterate(alpha, m, p, steps)[tgt] <= (1.0 - alpha) * r
  {
    hide Damped, DampedRow, Distribution, Next, SumIn, Sum, FunnelRate, Funnelled, Vouchers;
    var m, r, who := Damped(q, g, n, tag, ev), FunnelRate(|Vouchers(g, n, tgt)|, q.k0, q.mu), Vouchers(g, n, tgt);
    if steps == 0 {
      NonNegativeProduct(1.0 - alpha, r);
    } else {
      FunnelStep(q, g, n, tag, ev, tgt, c, alpha, p, steps - 1);
      DampedIsSubstochastic(q, g, n, tag, ev);
      var t := Iterate(alpha, m, p, steps - 1);
      IterateIsDistribution(alpha, m, p, steps - 1);
      DistributionParts(t);
      SumInWithin(who, t);
      PartOf(r, SumIn(who, t), r * SumIn(who, t));
      ProductMonotone(1.0 - alpha, r * SumIn(who, t), r);
    }
  }

  /** Only `rim` vouches for the target and it for nobody; they are tied to nobody else. */
  ghost predicate StarFunnel(g: Edges, n: nat, tgt: nat, rim: set<nat>) { Star(g, n, tgt, rim) && Vouchers(g, n, tgt) == rim }

  lemma StarIsFunnelled(g: Edges, n: nat, tgt: nat, rim: set<nat>, rounds: nat)
    requires StarFunnel(g, n, tgt, rim) && rounds >= 1
    ensures Funnelled(g, n, Sweeps(g, n, rounds), tgt, Sweeps(g, n, rounds)[tgt])
  {
    hide Sweeps;
    StarIsOneCommunity(g, n, tgt, rim, rounds);
    forall i: nat | i < n && Vouches(g, i, tgt) ensures i in rim { assert i in Vouchers(g, n, tgt); }
  }

  /** FROM THE GRAPH UP. A set of accounts that all vouch for one without evidence, and are tied to nobody else, is put
      in one community with it by label propagation and pumps it to at most `(1 - alpha) (n + k0) / (n + k0 + mu n)`. */
  lemma StarFunnelHoldsLittle(
    q: Settings, g: Edges, n: nat, ev: Evidence, tgt: nat, rim: set<nat>, alpha: real, p: Vec, steps: nat
  )
    requires Sensible(q) && |ev.total| == |ev.inDim| == n && NonNegative(ev.total) && NonNegative(ev.inDim)
    requires NonNegativeWeights(g) && q.damping && q.inConcentration
    requires StarFunnel(g, n, tgt, rim) && ev.inDim[tgt] == 0.0
    requires Weight(alpha) && |p| == n && Distribution(p) && p[tgt] == 0.0
    ensures var m, r := Damped(q, g, n, Sweeps(g, n, 15), ev), FunnelRate(|rim|, q.k0, q.mu);
      && Iterate(alpha, m, p, steps + 1)[tgt] <= (1.0 - alpha) * (r * SumIn(rim, Iterate(alpha, m, p, steps)))
      && Iterate(alpha, m, p, steps)[tgt] <= (1.0 - alpha) * r
  {
    hide Damped, Sweeps, FunnelRate, SumIn, Distribution, Funnelled, Iterate;
    var tag := Sweeps(g, n, MAX_SWEEPS);
    StarIsFunnelled(g, n, tgt, rim, MAX_SWEEPS);
    FunnelHoldsLittle(q, g, n, tag, ev, tgt, tag[tgt], alpha, p, steps);
  }

  // ---------------------------------------------------------------- an inbred community

  /** What a community with `edges` vouches inside and `held` evidence keeps of each of them. */
  function InbredRate(edges: nat, held: real, kappa: real): (r: real)
    requires held >= 0.0 && kappa >= 0.0
    ensures 0.0 < r <= 1.0
  {
    NonNegativeProduct(kappa, edges as real);
    UnitFraction(1.0 + held, 1.0 + held + kappa * edges as real);
    (1.0 + held) / (1.0 + held + kappa * edges as real)
  }

  lemma StrainPenalty(kappa: real, x: real, held: real, edges: nat)
    requires kappa >= 0.0 && x >= 0.0 && held >= 0.0 && x * (1.0 + held) == edges as real
    ensures Penalty(Strain(kappa, x)) == InbredRate(edges, held, kappa)
    ensures Penalty(Strain(kappa, x)) == 1.0 <==> kappa == 0.0 || edges == 0
  {
    PenaltyIsFraction(Strain(kappa, x));
    ClearFraction(1.0 + held, kappa, x, edges as real);
    ZeroTimes(kappa, x);
    ZeroTimes(x, 1.0 + held);
  }

  lemma ZeroTimes(a: real, b: real)
    requires a >= 0.0 && b >= 0.0
    ensures a * b == 0.0 <==> a == 0.0 || b == 0.0
  {
    if a > 0.0 && b > 0.0 { PositiveTimes(a, b); }
  }

  /** A vouch inside a community keeps exactly `(1 + E) / (1 + E + kappa v)` of its weight, for `v` vouches inside
      and evidence `E`: all of it exactly if kappa is zero or there is no vouch inside. A vouch across communities
      keeps all of it. */
  lemma InbredPenaltyIs(q: Settings, g: Edges, n: nat, tag: seq<nat>, ev: Evidence, i: nat, j: nat)
    requires Sensible(q) && Shaped(n, tag, ev) && i < n && j < n && q.community
    ensures SumIn(Members(tag, tag[i]), ev.total) >= 0.0
    ensures var f, edges := InbredPenalty(q, g, n, tag, ev, i, j), InternalEdges(g, n, tag, tag[i]);
      if tag[i] == tag[j]
      then f == InbredRate(edges, SumIn(Members(tag, tag[i]), ev.total), q.kappa) && (f == 1.0 <==> q.kappa == 0.0 || edges == 0)
      else f == 1.0
  {
    hide InternalEdges, SumIn, Penalty, Strain;
    var c := tag[i];
    SumInWithin(Members(tag, c), ev.total);
    var held, x := SumIn(Members(tag, c), ev.total), Suspicion(g, n, tag, ev, c);
    assert x * (1.0 + held) == InternalEdges(g, n, tag, c) as real;
    StrainPenalty(q.kappa, x, held, InternalEdges(g, n, tag, c));
  }

  /** Members of community `c` that vouch for a member. */
  function Insiders(g: Edges, n: nat, tag: seq<nat>, c: nat): set<nat>
    requires |tag| == n
  {
    set e | e in g && e.0 < n && e.1 < n && tag[e.0] == c && tag[e.1] == c :: e.0
  }

  lemma {:induction false} SourcesAtMost(edges: set<(nat, nat)>)
    ensures |set e | e in edges :: e.0| <= |edges|
    decreases |edges|
  {
    if edges != {} {
      var x :| x in edges;
      var rest := edges - {x};
      SourcesAtMost(rest);
      assert (set e | e in edges :: e.0) == (set e | e in rest :: e.0) + {x.0};
    } else {
      assert (set e | e in edges :: e.0) == {};
    }
  }

  lemma InsidersAtMostEdges(g: Edges, n: nat, tag: seq<nat>, c: nat)
    requires Labels(tag, n)
    ensures |Insiders(g, n, tag, c)| <= InternalEdges(g, n, tag, c)
  {
    var edges := set e | e in g && e.0 < n && e.1 < n && tag[e.0] == c && tag[e.1] == c;
    assert Insiders(g, n, tag, c) == set e | e in edges :: e.0;
    SourcesAtMost(edges);
  }

  lemma MoreEdgesKeepLess(few: nat, many: nat, kappa: real)
    requires few <= many && kappa >= 0.0
    ensures InbredRate(many, 0.0, kappa) <= Penalty(Strain(kappa, few as real))
  {
    ProductMonotone(kappa, few as real, many as real);
    Reciprocals(1.0 + Strain(kappa, few as real), 1.0 + Strain(kappa, many as real));
  }

  ghost predicate NoEvidence(tag: seq<nat>, ev: Evidence, c: nat) { SumIn(Members(tag, c), ev.total) == 0.0 }

  lemma InsideFactor(q: Settings, g: Edges, n: nat, tag: seq<nat>, ev: Evidence, c: nat, i: nat, j: nat)
    requires Sensible(q) && Shaped(n, tag, ev) && q.damping && q.community && NoEvidence(tag, ev, c)
    requires i < n && j < n && tag[i] == c == tag[j]
    ensures Factor(q, g, n, tag, ev, i, j) <= Penalty(Strain(q.kappa, |Insiders(g, n, tag, c)| as real))
  {
    hide Factor, InbredPenalty, InternalEdges, InbredRate, Penalty, Insiders, SumIn, FunnelPenalty, Independence, Strain;
    InbredPenaltyIs(q, g, n, tag, ev, i, j);
    FactorParts(q, g, n, tag, ev, i, j);
    InsidersAtMostEdges(g, n, tag, c);
    MoreEdgesKeepLess(|Insiders(g, n, tag, c)|, InternalEdges(g, n, tag, c), q.kappa);
  }

  /** A community without evidence in which `k` members vouch for members keeps at most `1 / (1 + kappa k)` of each
      member's trust. */
  lemma CommunityKeepsLittle(q: Settings, g: Edges, n: nat, tag: seq<nat>, ev: Evidence, c: nat)
    requires Sensible(q) && Shaped(n, tag, ev) && NonNegativeWeights(g) && q.damping && q.community && NoEvidence(tag, ev, c)
    ensures KeepsAtMost(Members(tag, c), Damped(q, g, n, tag, ev), Penalty(Strain(q.kappa, |Insiders(g, n, tag, c)| as real)))
  {
    hide Factor, DampedRow, Penalty, Insiders, SumIn, NoEvidence;
    var x, s := Strain(q.kappa, |Insiders(g, n, tag, c)| as real), Members(tag, c);
    PenaltyIsFraction(x);
    forall i | 0 <= i < n && i in s ensures SumIn(s, Damped(q, g, n, tag, ev)[i]) <= Penalty(x) {
      forall j: nat | j < n && j in s && Vouches(g, i, j) ensures Factor(q, g, n, tag, ev, i, j) <= Penalty(x) {
        InsideFactor(q, g, n, tag, ev, c, i, j);
      }
      RowKeeps(q, g, n, tag, ev, i, s, Penalty(x));
    }
  }

  /** AN INBRED COMMUNITY HOLDS LITTLE, if outsiders give it at most a share `b` of their trust: at every step at
      most `(1 - alpha) b / (1 - (1 - alpha) / (1 + kappa k))` of the mass. */
  lemma CommunityHoldsLittle(
    q: Settings, g: Edges, n: nat, tag: seq<nat>, ev: Evidence, c: nat, alpha: real, p: Vec, b: real, steps: nat
  )
    requires Sensible(q) && Shaped(n, tag, ev) && NonNegativeWeights(g) && q.damping && q.community && NoEvidence(tag, ev, c)
    requires Weight(alpha) && |p| == n && Distribution(p) && NoAnchor(Members(tag, c), p) && b >= 0.0
    requires GivesAtMost(Members(tag, c), Damped(q, g, n, tag, ev), b)
    ensures Laundered(alpha, Penalty(Strain(q.kappa, |Insiders(g, n, tag, c)| as real)), b,
      SumIn(Members(tag, c), Iterate(alpha, Damped(q, g, n, tag, ev), p, steps)))
  {
    hide Damped, Iterate, Distribution, SumIn, Laundered, KeepsAtMost, GivesAtMost, Insiders, NoEvidence;
    var m, s := Damped(q, g, n, tag, ev), Members(tag, c);
    DampedIsSubstochastic(q, g, n, tag, ev);
    CommunityKeepsLittle(q, g, n, tag, ev, c);
    var x := Strain(q.kappa, |Insiders(g, n, tag, c)| as real);
    PenaltyIsFraction(x);
    hide Penalty;
    PartOf(1.0 - alpha, Penalty(x), (1.0 - alpha) * Penalty(x));
    forall k: nat | k < steps ensures Outside(s, m, Iterate(alpha, m, p, k)) <= b { RowsBoundInflow(s, alpha, m, p, b, k); }
    LaunderingBound(s, alpha, m, p, Penalty(x), b, steps);
  }
}
