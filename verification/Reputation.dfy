/** Earned reputation in one dimension: damped trust propagation anchored in evidence. Floats are
    modelled as reals; agents are numbered, and a missing entry of the trust matrix is a zero. */
module Reputation {
  import opened Vectors

  // ---------------------------------------------------------------- the anchor

  datatype Agent = Agent(evidence: real, genesis: bool, human: bool)

  function Raw(agents: seq<Agent>, genesisWeight: real): (raw: Vec)
    ensures |raw| == |agents|
  {
    seq(|agents|, i requires 0 <= i < |agents| => agents[i].evidence + if agents[i].genesis then genesisWeight else 0.0)
  }

  function Humans(agents: seq<Agent>): nat {
    if agents == [] then 0 else Humans(agents[..|agents| - 1]) + if agents[|agents| - 1].human then 1 else 0
  }

  /** Normalised evidence; uniform over the humans when there is none; zero when there are no humans. */
  function Pretrust(agents: seq<Agent>, genesisWeight: real): (p: Vec)
    ensures |p| == |agents|
  {
    var raw := Raw(agents, genesisWeight);
    var total := Sum(raw);
    if total <= 0.0 then
      var h := Humans(agents);
      seq(|agents|, i requires 0 <= i < |agents| => if h > 0 && agents[i].human then 1.0 / h as real else 0.0)
    else
      seq(|agents|, i requires 0 <= i < |agents| => raw[i] / total)
  }

  ghost predicate Evident(agents: seq<Agent>, genesisWeight: real) {
    genesisWeight >= 0.0 && forall i | 0 <= i < |agents| :: agents[i].evidence >= 0.0
  }

  lemma {:induction false} HumansShare(agents: seq<Agent>, x: real, v: Vec)
    requires |v| == |agents|
    requires forall i | 0 <= i < |agents| :: v[i] == if agents[i].human then x else 0.0
    ensures Sum(v) == x * Humans(agents) as real
  {
    if v != [] {
      var n := |v| - 1;
      HumansShare(agents[..n], x, v[..n]);
      Distributes(x, Humans(agents[..n]) as real, 1.0);
    }
  }

  /** The anchor has mass one exactly when someone has evidence, a genesis seed or a proof of being human. */
  lemma PretrustIsDistribution(agents: seq<Agent>, genesisWeight: real)
    requires Evident(agents, genesisWeight)
    ensures NonNegative(Pretrust(agents, genesisWeight))
    ensures Distribution(Pretrust(agents, genesisWeight)) <==> Sum(Raw(agents, genesisWeight)) > 0.0 || Humans(agents) > 0
    ensures !Distribution(Pretrust(agents, genesisWeight)) ==> Sum(Pretrust(agents, genesisWeight)) == 0.0
  {
    var raw, p := Raw(agents, genesisWeight), Pretrust(agents, genesisWeight);
    var total := Sum(raw);
    if total <= 0.0 {
      var h := Humans(agents);
      HumansShare(agents, if h > 0 then 1.0 / h as real else 0.0, p);
    } else {
      Normalised(raw, total, p);
    }
  }

  lemma Normalised(raw: Vec, total: real, p: Vec)
    requires NonNegative(raw) && total == Sum(raw) > 0.0 && |p| == |raw|
    requires forall i | 0 <= i < |raw| :: p[i] == raw[i] / total
    ensures Distribution(p)
  {
    hide Sum;
    forall i | 0 <= i < |raw| ensures p[i] == Scale(1.0 / total, raw)[i] && p[i] >= 0.0 { Quotient(raw[i], total); }
    assert p == Scale(1.0 / total, raw);
    SumScale(1.0 / total, raw);
  }

  lemma Quotient(x: real, total: real)
    requires total > 0.0
    ensures x / total == (1.0 / total) * x
    ensures x >= 0.0 ==> x / total >= 0.0
  {}

  /** Who the anchor rests on: each agent in proportion to its evidence and, for a genesis seed, the weight of one; if
      nobody has any, the humans in equal parts. */
  lemma PretrustShares(agents: seq<Agent>, genesisWeight: real, i: nat)
    requires Evident(agents, genesisWeight) && i < |agents|
    ensures var p, own, all := Pretrust(agents, genesisWeight), agents[i].evidence, Sum(Raw(agents, genesisWeight));
      && (all > 0.0 ==> p[i] * all == if agents[i].genesis then own + genesisWeight else own)
      && (all <= 0.0 ==> p[i] * Humans(agents) as real == if agents[i].human then 1.0 else 0.0)
    ensures Humans(agents) == |set j: nat | j < |agents| && agents[j].human|
  {
    hide Sum, Humans, Pretrust, Raw;
    HumansCounted(agents);
    RawAt(agents, genesisWeight, i);
    var all := Sum(Raw(agents, genesisWeight));
    if all > 0.0 {
      PretrustEvident(agents, genesisWeight, i);
      Divided(Raw(agents, genesisWeight)[i], all);
    } else {
      PretrustUniform(agents, genesisWeight, i);
      if agents[i].human {
        SomeHuman(agents, i);
        Divided(1.0, Humans(agents) as real);
      }
    }
  }

  lemma RawAt(agents: seq<Agent>, genesisWeight: real, i: nat)
    requires i < |agents|
    ensures Raw(agents, genesisWeight)[i] == agents[i].evidence + if agents[i].genesis then genesisWeight else 0.0
  {}

  lemma PretrustEvident(agents: seq<Agent>, genesisWeight: real, i: nat)
    requires i < |agents| && Sum(Raw(agents, genesisWeight)) > 0.0
    ensures Pretrust(agents, genesisWeight)[i] == Raw(agents, genesisWeight)[i] / Sum(Raw(agents, genesisWeight))
  {
    hide Sum, Humans, Raw;
  }

  lemma PretrustUniform(agents: seq<Agent>, genesisWeight: real, i: nat)
    requires i < |agents| && Sum(Raw(agents, genesisWeight)) <= 0.0
    ensures !agents[i].human ==> Pretrust(agents, genesisWeight)[i] == 0.0
    ensures agents[i].human && Humans(agents) > 0 ==> Pretrust(agents, genesisWeight)[i] == 1.0 / Humans(agents) as real
  {
    hide Sum, Humans, Raw;
  }

  lemma {:induction false} SomeHuman(agents: seq<Agent>, i: nat)
    requires i < |agents| && agents[i].human
    ensures Humans(agents) > 0
    decreases |agents|
  {
    if i < |agents| - 1 { SomeHuman(agents[..|agents| - 1], i); }
  }

  lemma Divided(x: real, y: real)
    requires y > 0.0
    ensures x / y * y == x
  {}

  lemma {:induction false} HumansCounted(agents: seq<Agent>)
    ensures Humans(agents) == |set j: nat | j < |agents| && agents[j].human|
  {
    var all := set j: nat | j < |agents| && agents[j].human;
    if agents == [] {
      assert all == {};
    } else {
      var n := |agents| - 1;
      HumansCounted(agents[..n]);
      assert all == (set j: nat | j < n && agents[..n][j].human) + if agents[n].human then {n} else {};
    }
  }

  // ---------------------------------------------------------------- one step

  ghost predicate Substochastic(m: Matrix) {
    Square(m, |m|) && forall i | 0 <= i < |m| :: NonNegative(m[i]) && Sum(m[i]) <= 1.0
  }

  /** A row with its missing mass given to the anchor. */
  function Anchored(row: Vec, p: Vec): Vec
    requires |row| == |p|
  {
    Plus(row, Scale(1.0 - Sum(row), p))
  }

  function Emitted(alpha: real, x: real): real { (1.0 - alpha) * x }

  /** What an agent holding `x` sends out, its undelivered part included. */
  function SentBy(alpha: real, row: Vec, p: Vec, x: real): (v: Vec)
    requires |row| == |p|
    ensures |v| == |p|
  {
    Scale(Emitted(alpha, x), Anchored(row, p))
  }

  function Sent(alpha: real, m: Matrix, p: Vec, t: Vec): (rows: Matrix)
    requires Square(m, |p|) && |t| == |p|
    ensures Square(rows, |p|)
    ensures forall i | 0 <= i < |p| :: rows[i] == SentBy(alpha, m[i], p, t[i])
  {
    seq(|p|, i requires 0 <= i < |p| => SentBy(alpha, m[i], p, t[i]))
  }

  /** The share of the anchor, and everything the agents send. */
  function Next(alpha: real, m: Matrix, p: Vec, t: Vec): (v: Vec)
    requires Square(m, |p|) && |t| == |p|
    ensures |v| == |p|
  {
    Total(Scale(alpha, p), Sent(alpha, m, p, t), |p|)
  }

  /** `nt` with the leak still owed to the anchor amounts to `v`. */
  ghost predicate Amounts(nt: Vec, leak: real, p: Vec, v: Vec) { |nt| == |p| && v == Plus(nt, Scale(leak, p)) }

  /** Sending a row and keeping back its deficit is sending the completed row. */
  lemma RowSent(v: Vec, nt: Vec, leak: real, kept: real, e: real, p: Vec, row: Vec, deficit: Vec)
    requires |nt| == |p| == |row| == |deficit|
    requires v == Plus(nt, Scale(leak, p)) && Scale(kept, p) == Scale(e, deficit)
    ensures Plus(Plus(nt, Scale(e, row)), Scale(leak + kept, p)) == Plus(v, Scale(e, Plus(row, deficit)))
  {
    ScaleSum(leak, kept, p);
    ScalePlus(e, row, deficit);
    Exchange(nt, Scale(e, row), Scale(leak, p), Scale(kept, p));
  }

  /** `nt[j] += e * v[j]`, entry by entry. */
  method AddTo(nt: Vec, e: real, v: Vec) returns (r: Vec)
    requires |nt| == |v|
    ensures r == Plus(nt, Scale(e, v))
  {
    r := nt;
    for j := 0 to |v|
      invariant |r| == |v|
      invariant forall k | 0 <= k < |v| :: r[k] == if k < j then Plus(nt, Scale(e, v))[k] else nt[k]
    {
      r := r[j := r[j] + e * v[j]];
    }
  }

  /** One agent's turn: its trust along its row, and the undelivered part into the leak. */
  method SendRow(nt: Vec, leak: real, ti: real, emitted: real, row: Vec, rowSum: real, p: Vec, ghost v: Vec)
    returns (nt': Vec, leak': real)
    requires |p| == |row| == |v| && rowSum == Sum(row) && Amounts(nt, leak, p, v)
    requires ti == 0.0 ==> emitted == 0.0
    ensures Amounts(nt', leak', p, Plus(v, Scale(emitted, Anchored(row, p))))
  {
    if ti == 0.0 {
      Silent(v, emitted, Anchored(row, p));
      return nt, leak;
    }
    var deficit := 1.0 - rowSum;
    var kept := emitted * deficit;
    ScaleScale(emitted, deficit, p);
    RowSent(v, nt, leak, kept, emitted, p, row, Scale(deficit, p));
    nt' := AddTo(nt, emitted, row);
    leak' := leak + kept;
  }

  method SendAll(alpha: real, m: Matrix, p: Vec, rowSum: Vec, t: Vec) returns (nt: Vec, leak: real)
    requires Square(m, |p|) && |t| == |p| == |rowSum|
    requires forall i | 0 <= i < |p| :: rowSum[i] == Sum(m[i])
    ensures Amounts(nt, leak, p, Next(alpha, m, p, t))
  {
    ghost var base, rows := Scale(alpha, p), Sent(alpha, m, p, t);
    nt, leak := Scale(alpha, p), 0.0;
    Silent(nt, leak, p);
    for i := 0 to |p|
      invariant Amounts(nt, leak, p, Total(base, rows, i))
    {
      nt, leak := SendRow(nt, leak, t[i], Emitted(alpha, t[i]), m[i], rowSum[i], p, Total(base, rows, i));
    }
  }

  /** One step as it is computed: sent along the rows, with the undelivered part gathered and given
      to the anchor at the end. It is the step with every row completed first. */
  method Step(alpha: real, m: Matrix, p: Vec, rowSum: Vec, t: Vec) returns (nt: Vec)
    requires Square(m, |p|) && |t| == |p| == |rowSum|
    requires forall i | 0 <= i < |p| :: rowSum[i] == Sum(m[i])
    ensures nt == Next(alpha, m, p, t)
  {
    var leak;
    nt, leak := SendAll(alpha, m, p, rowSum, t);
    if leak != 0.0 {
      nt := AddTo(nt, leak, p);
    } else {
      Silent(nt, leak, p);
    }
  }

  // ---------------------------------------------------------------- what a step keeps

  predicate Weight(alpha: real) { 0.0 <= alpha <= 1.0 }

  lemma ScaledDistribution(a: real, v: Vec)
    requires Distribution(v)
    ensures Sum(Scale(a, v)) == a
  {
    SumScale(a, v);
  }

  lemma AnchoredIsDistribution(row: Vec, p: Vec)
    requires |row| == |p| && NonNegative(row) && Sum(row) <= 1.0 && Distribution(p)
    ensures Distribution(Anchored(row, p))
  {
    hide Sum;
    var d := 1.0 - Sum(row);
    var back := Scale(d, p);
    ScaledNonNegative(d, p);
    ScaledDistribution(d, p);
    SumPlus({}, row, back);
    PlusNonNegative(row, back);
  }

  function Everyone(n: nat): set<nat> { Others({}, n) }

  lemma SumIsEveryone(v: Vec, n: nat)
    requires n >= |v|
    ensures Sum(v) == SumIn(Everyone(n), v)
  {
    SumSplits({}, v, n);
    SumInZero({}, v);
  }

  lemma SentMass(alpha: real, row: Vec, p: Vec, x: real)
    requires |row| == |p| && NonNegative(row) && Sum(row) <= 1.0 && Distribution(p)
    ensures Sum(SentBy(alpha, row, p, x)) == Emitted(alpha, x)
  {
    hide Sum, Emitted;
    AnchoredIsDistribution(row, p);
    ScaledDistribution(Emitted(alpha, x), Anchored(row, p));
  }

  lemma SentNonNegative(alpha: real, row: Vec, p: Vec, x: real)
    requires |row| == |p| && NonNegative(row) && Sum(row) <= 1.0 && Distribution(p) && Weight(alpha) && x >= 0.0
    ensures NonNegative(SentBy(alpha, row, p, x))
  {
    hide Sum, Anchored;
    AnchoredIsDistribution(row, p);
    ProductMonotone(1.0 - alpha, 0.0, x);
    ScaledNonNegative(Emitted(alpha, x), Anchored(row, p));
  }

  lemma SentMasses(alpha: real, m: Matrix, p: Vec, t: Vec)
    requires Substochastic(m) && |m| == |p| == |t| && Distribution(p)
    ensures Masses(Everyone(|p|), Sent(alpha, m, p, t)) == Scale(1.0 - alpha, t)
  {
    hide Sum, SumIn, SentBy;
    var rows := Sent(alpha, m, p, t);
    forall i | 0 <= i < |p| ensures Masses(Everyone(|p|), rows)[i] == Scale(1.0 - alpha, t)[i] {
      SentMass(alpha, m[i], p, t[i]);
      SumIsEveryone(rows[i], |p|);
    }
  }

  /** Every step keeps the entries non-negative and the total mass one. */
  lemma NextIsDistribution(alpha: real, m: Matrix, p: Vec, t: Vec)
    requires Weight(alpha) && Substochastic(m) && |m| == |p| == |t|
    requires Distribution(p) && Distribution(t)
    ensures Distribution(Next(alpha, m, p, t))
  {
    hide Next, Sum;
    NextNonNegative(alpha, m, p, t);
    NextMass(alpha, m, p, t);
  }

  lemma NextNonNegative(alpha: real, m: Matrix, p: Vec, t: Vec)
    requires Weight(alpha) && Substochastic(m) && |m| == |p| == |t| && Distribution(p) && NonNegative(t)
    ensures NonNegative(Next(alpha, m, p, t))
  {
    hide Sum, SentBy;
    forall i | 0 <= i < |p| ensures NonNegative(Sent(alpha, m, p, t)[i]) { SentNonNegative(alpha, m[i], p, t[i]); }
    ScaledNonNegative(alpha, p);
    TotalNonNegative(Scale(alpha, p), Sent(alpha, m, p, t), |p|);
  }

  lemma TotalIsSum(base: Vec, rows: Matrix)
    requires Square(rows, |base|)
    ensures Sum(Total(base, rows, |base|)) == Sum(base) + Sum(Masses(Everyone(|base|), rows))
  {
    hide Sum, SumIn, Total;
    var all := Everyone(|base|);
    TotalMass(all, base, rows, |base|);
    SumIsEveryone(Total(base, rows, |base|), |base|);
    SumIsEveryone(base, |base|);
    assert Masses(all, rows)[..|base|] == Masses(all, rows);
  }

  lemma SumEmitted(alpha: real, v: Vec)
    ensures Sum(Scale(1.0 - alpha, v)) == Emitted(alpha, Sum(v))
  {
    SumScale(1.0 - alpha, v);
  }

  lemma NextMass(alpha: real, m: Matrix, p: Vec, t: Vec)
    requires Substochastic(m) && |m| == |p| == |t| && Distribution(p)
    ensures Sum(Next(alpha, m, p, t)) == alpha + Emitted(alpha, Sum(t))
  {
    hide Sum, Total, Sent, Masses, Emitted, Scale;
    TotalIsSum(Scale(alpha, p), Sent(alpha, m, p, t));
    ScaledDistribution(alpha, p);
    SentMasses(alpha, m, p, t);
    SumEmitted(alpha, t);
  }

  lemma SentApart(alpha: real, row: Vec, p: Vec, x: real, y: real)
    requires Weight(alpha) && |row| == |p| && NonNegative(row) && Sum(row) <= 1.0 && Distribution(p)
    ensures Dist(SentBy(alpha, row, p, x), SentBy(alpha, row, p, y)) == Emitted(alpha, Abs(x - y))
  {
    hide Sum, Dist;
    AnchoredIsDistribution(row, p);
    DistScale(Emitted(alpha, x), Emitted(alpha, y), Anchored(row, p));
    EmittedApart(alpha, x, y);
  }

  lemma EmittedApart(alpha: real, x: real, y: real)
    requires Weight(alpha)
    ensures Abs(Emitted(alpha, x) - Emitted(alpha, y)) == Emitted(alpha, Abs(x - y))
  {
    var c := 1.0 - alpha;
    assert c * x - c * y == c * (x - y);
    assert c * (y - x) == -(c * (x - y));
    ProductMonotone(c, 0.0, Abs(x - y));
  }

  lemma RowApart(alpha: real, m: Matrix, p: Vec, t: Vec, u: Vec, d: Vec, i: nat)
    requires Weight(alpha) && Substochastic(m) && |m| == |p| == |t| == |u| && Distribution(p)
    requires d == Scale(1.0 - alpha, Apart(t, u)) && i < |p|
    ensures Dist(Sent(alpha, m, p, t)[i], Sent(alpha, m, p, u)[i]) <= d[i]
  {
    hide Sum, Dist, SentBy;
    SentApart(alpha, m[i], p, t[i], u[i]);
  }

  /** The step brings any two vectors closer by the factor `1 - alpha`. */
  lemma Contraction(alpha: real, m: Matrix, p: Vec, t: Vec, u: Vec)
    requires Weight(alpha) && Substochastic(m) && |m| == |p| == |t| == |u| && Distribution(p)
    ensures Dist(Next(alpha, m, p, t), Next(alpha, m, p, u)) <= Emitted(alpha, Dist(t, u))
  {
    hide Sum, Dist, Total, Sent, Emitted, Scale, Apart;
    var d := Scale(1.0 - alpha, Apart(t, u));
    forall i | 0 <= i < |p| ensures Dist(Sent(alpha, m, p, t)[i], Sent(alpha, m, p, u)[i]) <= d[i] {
      RowApart(alpha, m, p, t, u, d, i);
    }
    TotalsApart(Scale(alpha, p), Sent(alpha, m, p, t), Sent(alpha, m, p, u), d, |p|);
    assert d[..|p|] == d;
    SumEmitted(alpha, Apart(t, u));
    DistIsSum(t, u);
  }

  /** The anchored process has at most one resting point. */
  lemma FixedPointUnique(alpha: real, m: Matrix, p: Vec, t: Vec, u: Vec)
    requires 0.0 < alpha <= 1.0 && Substochastic(m) && |m| == |p| == |t| == |u| && Distribution(p)
    requires Next(alpha, m, p, t) == t && Next(alpha, m, p, u) == u
    ensures t == u
  {
    hide Next, Dist;
    Contraction(alpha, m, p, t, u);
    DistZero(t, u);
    NoDistance(alpha, Dist(t, u));
  }

  lemma NoDistance(alpha: real, d: real)
    requires 0.0 < alpha && d >= 0.0 && d <= Emitted(alpha, d)
    ensures d == 0.0
  {
    assert (1.0 - alpha) * d == d - alpha * d;
    assert d > 0.0 ==> alpha * d > 0.0;
  }

  // ---------------------------------------------------------------- the iteration

  function Iterate(alpha: real, m: Matrix, p: Vec, n: nat): (t: Vec)
    requires Square(m, |p|)
    ensures |t| == |p|
  {
    if n == 0 then p else Next(alpha, m, p, Iterate(alpha, m, p, n - 1))
  }

  function Delta(alpha: real, m: Matrix, p: Vec, n: nat): real
    requires Square(m, |p|)
  {
    Dist(Iterate(alpha, m, p, n + 1), Iterate(alpha, m, p, n))
  }

  /** The loop stops after the first step that moved less than `tol`, or at the iteration cap. */
  ghost predicate StopsAt(alpha: real, m: Matrix, p: Vec, iterations: nat, tol: real, steps: nat) {
    && Square(m, |p|) && steps <= iterations
    && (forall k: nat | k + 1 < steps :: Delta(alpha, m, p, k) >= tol)
    && (steps < iterations ==> steps > 0 && Delta(alpha, m, p, steps - 1) < tol)
  }

  method Move(alpha: real, m: Matrix, p: Vec, rowSum: Vec, t: Vec, ghost k: nat) returns (nt: Vec, delta: real)
    requires Square(m, |p|) && |rowSum| == |p| && t == Iterate(alpha, m, p, k)
    requires forall i | 0 <= i < |p| :: rowSum[i] == Sum(m[i])
    ensures nt == Iterate(alpha, m, p, k + 1) && delta == Delta(alpha, m, p, k)
  {
    nt := Step(alpha, m, p, rowSum, t);
    delta := Dist(nt, t);
  }

  ghost predicate StillMoving(alpha: real, m: Matrix, p: Vec, tol: real, k: nat) requires Square(m, |p|) {
    forall j: nat | j < k :: Delta(alpha, m, p, j) >= tol
  }

  method Converge(p: Vec, m: Matrix, alpha: real, iterations: nat, tol: real) returns (t: Vec, steps: nat)
    requires Square(m, |p|)
    ensures StopsAt(alpha, m, p, iterations, tol, steps) && t == Iterate(alpha, m, p, steps)
  {
    hide Delta, Next, Sum, Dist;
    var rowSum := seq(|p|, i requires 0 <= i < |p| => Sum(m[i]));
    t, steps := p, 0;
    while steps < iterations
      invariant steps <= iterations && t == Iterate(alpha, m, p, steps)
      invariant StillMoving(alpha, m, p, tol, steps)
    {
      var delta;
      t, delta := Move(alpha, m, p, rowSum, t, steps);
      steps := steps + 1;
      if delta < tol { return; }
    }
  }

  method ReputationDimension(
    agents: seq<Agent>, m: Matrix, alpha: real, iterations: nat, tol: real, scale: real
  ) returns (r: Vec, steps: nat)
    requires Square(m, |agents|)
    ensures StopsAt(alpha, m, Pretrust(agents, 1.0), iterations, tol, steps)
    ensures r == Scale(scale, Iterate(alpha, m, Pretrust(agents, 1.0), steps))
  {
    var t;
    t, steps := Converge(Pretrust(agents, 1.0), m, alpha, iterations, tol);
    r := Scale(scale, t);
  }

  lemma {:induction false} IterateIsDistribution(alpha: real, m: Matrix, p: Vec, n: nat)
    requires Weight(alpha) && Substochastic(m) && |m| == |p| && Distribution(p)
    ensures Distribution(Iterate(alpha, m, p, n))
  {
    if n > 0 {
      IterateIsDistribution(alpha, m, p, n - 1);
      NextIsDistribution(alpha, m, p, Iterate(alpha, m, p, n - 1));
    }
  }

  /** Successive steps move geometrically less. */
  lemma {:induction false} DeltaShrinks(alpha: real, m: Matrix, p: Vec, n: nat)
    requires Weight(alpha) && Substochastic(m) && |m| == |p| && Distribution(p)
    ensures 0.0 <= Delta(alpha, m, p, n) <= 2.0 * Power(1.0 - alpha, n)
  {
    hide Next, Sum, Dist;
    var t, u := Iterate(alpha, m, p, n), Iterate(alpha, m, p, n + 1);
    DistZero(u, t);
    if n == 0 {
      IterateIsDistribution(alpha, m, p, 1);
      DistOfDistributions(u, t);
    } else {
      DeltaShrinks(alpha, m, p, n - 1);
      Contraction(alpha, m, p, t, Iterate(alpha, m, p, n - 1));
      OneMoreFactor(alpha, Delta(alpha, m, p, n), Delta(alpha, m, p, n - 1), Power(1.0 - alpha, n - 1));
    }
  }

  lemma OneMoreFactor(alpha: real, moved: real, before: real, power: real)
    requires Weight(alpha) && moved <= Emitted(alpha, before) && before <= 2.0 * power
    ensures moved <= 2.0 * ((1.0 - alpha) * power)
  {
    ProductMonotone(1.0 - alpha, before, 2.0 * power);
  }

  lemma {:induction false} PowerAdds(x: real, a: nat, b: nat)
    ensures Power(x, a + b) == Power(x, a) * Power(x, b)
  {
    if a > 0 {
      PowerAdds(x, a - 1, b);
      assert Power(x, a + b) == x * Power(x, a - 1 + b);
    }
  }

  lemma SquareBelow(x: real, n: nat, bound: real)
    requires 0.0 <= Power(x, n) <= bound
    ensures 0.0 <= Power(x, 2 * n) <= bound * bound
  {
    PowerAdds(x, n, n);
    ProductMonotone(bound, Power(x, n), bound);
    ProductMonotone(Power(x, n), Power(x, n), bound);
    ProductMonotone(Power(x, n), 0.0, Power(x, n));
  }

  lemma SeventyPercent()
    ensures 2.0 * Power(0.7, 80) < 0.000000000001
  {
    assert Power(0.7, 5) == 0.16807 by {
      assert Power(0.7, 0) == 1.0 && Power(0.7, 1) == 0.7 && Power(0.7, 2) == 0.49 && Power(0.7, 3) == 0.343 && Power(0.7, 4) == 0.2401;
    }
    SquareBelow(0.7, 5, 0.16807);
    SquareBelow(0.7, 10, 0.02825);
    SquareBelow(0.7, 20, 0.000799);
    SquareBelow(0.7, 40, 0.00000063841);
  }

  /** With the default anchor weight 0.3 and tolerance 10^-12 the loop always leaves by convergence, after at
      most 81 of its 200 iterations. */
  lemma DefaultsConverge(m: Matrix, p: Vec, steps: nat)
    requires Substochastic(m) && |m| == |p| && Distribution(p)
    requires StopsAt(0.3, m, p, 200, 0.000000000001, steps)
    ensures 0 < steps <= 81 && Delta(0.3, m, p, steps - 1) < 0.000000000001
  {
    DeltaShrinks(0.3, m, p, 80);
    SeventyPercent();
  }

  /** A converged result is within `tol * (1 - alpha) / alpha` of every fixed point. */
  lemma NearFixedPoint(alpha: real, m: Matrix, p: Vec, tol: real, steps: nat, fixed: Vec)
    requires 0.0 < alpha <= 1.0 && Substochastic(m) && |m| == |p| == |fixed| && Distribution(p)
    requires steps > 0 && Delta(alpha, m, p, steps - 1) < tol
    requires Next(alpha, m, p, fixed) == fixed
    ensures Dist(Iterate(alpha, m, p, steps), fixed) <= tol * (1.0 - alpha) / alpha
  {
    hide Next, Dist;
    var last, t := Iterate(alpha, m, p, steps - 1), Iterate(alpha, m, p, steps);
    Contraction(alpha, m, p, last, fixed);
    Triangle(last, t, fixed);
    Triangle(t, last, t);
    FarAtMost(alpha, Dist(t, fixed), Dist(last, fixed), tol);
  }

  /** A converged result is where the iteration would have stayed: however many more steps it had taken, it
      would have moved at most `tol * (1 - alpha) / alpha` from it. */
  lemma {:induction false} StaysConverged(alpha: real, m: Matrix, p: Vec, tol: real, steps: nat, more: nat)
    requires 0.0 < alpha <= 1.0 && Substochastic(m) && |m| == |p| && Distribution(p)
    requires steps > 0 && Delta(alpha, m, p, steps - 1) < tol
    ensures Dist(Iterate(alpha, m, p, steps + more), Iterate(alpha, m, p, steps)) <= tol * (1.0 - alpha) / alpha
  {
    hide Next, Dist;
    var before, t := Iterate(alpha, m, p, steps - 1), Iterate(alpha, m, p, steps);
    DistZero(t, before);
    if more == 0 {
      DistZero(t, t);
      NothingIsWithin(alpha, tol);
    } else {
      var u := Iterate(alpha, m, p, steps + (more - 1));
      StaysConverged(alpha, m, p, tol, steps, more - 1);
      Contraction(alpha, m, p, u, before);
      Triangle(u, t, before);
      assert Iterate(alpha, m, p, steps + more) == Next(alpha, m, p, u) && t == Next(alpha, m, p, before);
      StillWithin(alpha, tol, Dist(u, t), Dist(u, before), Dist(Iterate(alpha, m, p, steps + more), t));
    }
  }

  lemma NothingIsWithin(alpha: real, tol: real)
    requires 0.0 < alpha <= 1.0 && tol >= 0.0
    ensures 0.0 <= tol * (1.0 - alpha) / alpha
  {
    ProductMonotone(tol, 0.0, 1.0 - alpha);
    DivideBy(alpha, 0.0, tol * (1.0 - alpha));
  }

  lemma QuotientTimes(alpha: real, x: real)
    requires alpha > 0.0
    ensures alpha * (x / alpha) == x
  {}

  /** One more contraction keeps the bound. */
  lemma StillWithin(alpha: real, tol: real, far: real, before: real, next: real)
    requires 0.0 < alpha <= 1.0 && far <= tol * (1.0 - alpha) / alpha
    requires before <= far + tol && next <= Emitted(alpha, before)
    ensures next <= tol * (1.0 - alpha) / alpha
  {
    var k, bound := 1.0 - alpha, tol * (1.0 - alpha) / alpha;
    QuotientTimes(alpha, tol * (1.0 - alpha));
    ProductMonotone(k, before, bound + tol);
    Distributes(k, bound, tol);
    assert bound - k * bound == alpha * bound;
  }

  lemma FarAtMost(alpha: real, far: real, before: real, tol: real)
    requires 0.0 < alpha <= 1.0 && far <= Emitted(alpha, before) && before <= tol + far
    ensures far <= tol * (1.0 - alpha) / alpha
  {
    var k := 1.0 - alpha;
    ProductMonotone(k, before, tol + far);
    Distributes(k, tol, far);
    assert far - k * far == alpha * far;
    DivideBy(alpha, far, tol * k);
  }

  lemma DivideBy(alpha: real, x: real, y: real)
    requires alpha > 0.0 && alpha * x <= y
    ensures x <= y / alpha
  {
    assert (y / alpha) * alpha == y;
    assert alpha * (y / alpha - x) >= 0.0;
  }

  // ---------------------------------------------------------------- laundering

  /** What each agent gives to the members of `s`. */
  function Gifts(s: set<nat>, m: Matrix, t: Vec): (g: Vec)
    requires Square(m, |t|)
    ensures |g| == |t| && forall i | 0 <= i < |t| :: g[i] == t[i] * SumIn(s, m[i])
  {
    seq(|t|, i requires 0 <= i < |t| => t[i] * SumIn(s, m[i]))
  }

  function Inside(s: set<nat>, m: Matrix, t: Vec): real requires Square(m, |t|) { SumIn(s, Gifts(s, m, t)) }

  /** The inflow of one step from agents outside `s`. */
  function Outside(s: set<nat>, m: Matrix, t: Vec): real requires Square(m, |t|) { SumIn(Others(s, |t|), Gifts(s, m, t)) }

  ghost predicate NoAnchor(s: set<nat>, p: Vec) { forall i | 0 <= i < |p| && i in s :: p[i] == 0.0 }

  lemma NoAnchorScaled(s: set<nat>, alpha: real, p: Vec)
    requires NoAnchor(s, p)
    ensures SumIn(s, Scale(alpha, p)) == 0.0
  {
    SumInZero(s, p);
    SumInScale(s, alpha, p);
  }

  lemma AnchoredInto(s: set<nat>, row: Vec, p: Vec)
    requires |row| == |p| && NoAnchor(s, p)
    ensures SumIn(s, Anchored(row, p)) == SumIn(s, row)
  {
    hide Sum, SumIn;
    var back := Scale(1.0 - Sum(row), p);
    NoAnchorScaled(s, 1.0 - Sum(row), p);
    SumPlus(s, row, back);
  }

  lemma SentInto(s: set<nat>, alpha: real, m: Matrix, p: Vec, t: Vec)
    requires Square(m, |p|) && |t| == |p| && NoAnchor(s, p)
    ensures Masses(s, Sent(alpha, m, p, t)) == Scale(1.0 - alpha, Gifts(s, m, t))
  {
    var rows, g := Sent(alpha, m, p, t), Gifts(s, m, t);
    forall i | 0 <= i < |p| ensures Masses(s, rows)[i] == Scale(1.0 - alpha, g)[i] {
      AnchoredInto(s, m[i], p);
      SumInScale(s, Emitted(alpha, t[i]), Anchored(m[i], p));
      Associates(1.0 - alpha, t[i], SumIn(s, m[i]));
    }
  }

  /** The mass of an unanchored set after a step is what members and outsiders gave it. */
  lemma NextInto(s: set<nat>, alpha: real, m: Matrix, p: Vec, t: Vec)
    requires Square(m, |p|) && |t| == |p| && NoAnchor(s, p)
    ensures SumIn(s, Next(alpha, m, p, t)) == Emitted(alpha, Inside(s, m, t) + Outside(s, m, t))
  {
    hide Sum, SumIn;
    var base, rows, g := Scale(alpha, p), Sent(alpha, m, p, t), Gifts(s, m, t);
    TotalMass(s, base, rows, |p|);
    assert Masses(s, rows)[..|p|] == Masses(s, rows);
    NoAnchorScaled(s, alpha, p);
    SentInto(s, alpha, m, p, t);
    SumEmitted(alpha, g);
    SumSplits(s, g, |t|);
  }

  /** Each member's row keeps at most `rho` of its trust inside `s`. */
  ghost predicate KeepsAtMost(s: set<nat>, m: Matrix, rho: real) {
    Square(m, |m|) && forall i | 0 <= i < |m| && i in s :: SumIn(s, m[i]) <= rho
  }

  /** Each outsider's row gives at most `b` of its trust to `s`. */
  ghost predicate GivesAtMost(s: set<nat>, m: Matrix, b: real) {
    Square(m, |m|) && forall i | 0 <= i < |m| && i !in s :: SumIn(s, m[i]) <= b
  }

  /** Gifts from the agents in `who` are at most their mass times the bound on their rows. */
  lemma GiftsAtMost(s: set<nat>, who: set<nat>, m: Matrix, t: Vec, b: real)
    requires Square(m, |t|) && NonNegative(t) && forall i | 0 <= i < |t| && i in who :: SumIn(s, m[i]) <= b
    ensures SumIn(who, Gifts(s, m, t)) <= b * SumIn(who, t)
  {
    var g, bound := Gifts(s, m, t), Scale(b, t);
    forall i | 0 <= i < |t| && i in who ensures g[i] <= bound[i] { ProductMonotone(t[i], SumIn(s, m[i]), b); }
    SumInMonotone(who, g, bound);
    SumInScale(who, b, t);
  }

  /** At most `(1 - alpha) b / (1 - (1 - alpha) rho)`. */
  ghost predicate Laundered(alpha: real, rho: real, b: real, mass: real) {
    mass * (1.0 - (1.0 - alpha) * rho) <= (1.0 - alpha) * b
  }

  lemma Recurrence(c: real, rho: real, b: real, mass: real, inside: real, outside: real)
    requires 0.0 <= c && 0.0 <= rho && c * rho <= 1.0
    requires inside <= rho * mass && outside <= b
    requires mass * (1.0 - c * rho) <= c * b
    ensures (c * (inside + outside)) * (1.0 - c * rho) <= c * b
  {
    var k := c * rho;
    ProductMonotone(c, inside + outside, rho * mass + b);
    assert c * (rho * mass + b) == k * mass + c * b;
    var next := c * (inside + outside);
    ProductMonotone(1.0 - k, next, k * mass + c * b);
    assert (1.0 - k) * (k * mass + c * b) == k * (mass * (1.0 - k)) + (1.0 - k) * (c * b);
    ProductMonotone(k, mass * (1.0 - k), c * b);
    assert k * (c * b) + (1.0 - k) * (c * b) == c * b;
  }

  lemma StaysLaundered(alpha: real, rho: real, b: real, mass: real, inside: real, outside: real)
    requires Weight(alpha) && 0.0 <= rho && (1.0 - alpha) * rho <= 1.0
    requires inside <= rho * mass && outside <= b && Laundered(alpha, rho, b, mass)
    ensures Laundered(alpha, rho, b, Emitted(alpha, inside + outside))
  {
    Recurrence(1.0 - alpha, rho, b, mass, inside, outside);
  }

  lemma LaunderingStep(s: set<nat>, alpha: real, m: Matrix, p: Vec, rho: real, b: real, t: Vec)
    requires Weight(alpha) && Square(m, |p|) && |t| == |p| && NonNegative(t) && NoAnchor(s, p)
    requires 0.0 <= rho && (1.0 - alpha) * rho <= 1.0 && KeepsAtMost(s, m, rho) && Outside(s, m, t) <= b
    requires Laundered(alpha, rho, b, SumIn(s, t))
    ensures Laundered(alpha, rho, b, SumIn(s, Next(alpha, m, p, t)))
  {
    hide Next, Sum, SumIn, Laundered, Emitted;
    NextInto(s, alpha, m, p, t);
    GiftsAtMost(s, s, m, t, rho);
    StaysLaundered(alpha, rho, b, SumIn(s, t), Inside(s, m, t), Outside(s, m, t));
  }

  lemma NothingLaundered(alpha: real, rho: real, b: real)
    requires Weight(alpha) && b >= 0.0
    ensures Laundered(alpha, rho, b, 0.0)
  {
    ProductMonotone(1.0 - alpha, 0.0, b);
  }

  /** Accounts without evidence that keep at most `rho` among themselves and receive at most `b` per
      step never hold more than `(1 - alpha) b / (1 - (1 - alpha) rho)`. */
  lemma {:induction false} LaunderingBound(s: set<nat>, alpha: real, m: Matrix, p: Vec, rho: real, b: real, n: nat)
    requires Weight(alpha) && Substochastic(m) && |m| == |p| && Distribution(p) && NoAnchor(s, p)
    requires 0.0 <= rho && (1.0 - alpha) * rho <= 1.0 && b >= 0.0 && KeepsAtMost(s, m, rho)
    requires forall k: nat | k < n :: Outside(s, m, Iterate(alpha, m, p, k)) <= b
    ensures Laundered(alpha, rho, b, SumIn(s, Iterate(alpha, m, p, n)))
  {
    hide Next, Sum, SumIn, Laundered;
    if n == 0 {
      SumInZero(s, p);
      NothingLaundered(alpha, rho, b);
    } else {
      LaunderingBound(s, alpha, m, p, rho, b, n - 1);
      IterateIsDistribution(alpha, m, p, n - 1);
      LaunderingStep(s, alpha, m, p, rho, b, Iterate(alpha, m, p, n - 1));
    }
  }

  /** A row-by-row bound on what outsiders give bounds every step. */
  lemma RowsBoundInflow(s: set<nat>, alpha: real, m: Matrix, p: Vec, b: real, k: nat)
    requires Weight(alpha) && Substochastic(m) && |m| == |p| && Distribution(p)
    requires GivesAtMost(s, m, b) && b >= 0.0
    ensures Outside(s, m, Iterate(alpha, m, p, k)) <= b
  {
    hide Sum, SumIn;
    var t, who := Iterate(alpha, m, p, k), Others(s, |p|);
    IterateIsDistribution(alpha, m, p, k);
    GiftsAtMost(s, who, m, t, b);
    SumInWithin(who, t);
    ProductMonotone(b, SumIn(who, t), 1.0);
  }

  lemma KeepsAtMostAll(s: set<nat>, m: Matrix)
    requires Substochastic(m)
    ensures KeepsAtMost(s, m, 1.0)
  {
    forall i | 0 <= i < |m| && i in s ensures SumIn(s, m[i]) <= 1.0 { SumInWithin(s, m[i]); }
  }

  /** Sybils: accounts without evidence that nobody outside vouches for hold exactly nothing, however
      much they vouch for each other and for however long the loop runs. */
  lemma SybilsHoldNothing(s: set<nat>, alpha: real, m: Matrix, p: Vec, n: nat)
    requires 0.0 < alpha <= 1.0 && Substochastic(m) && |m| == |p| && Distribution(p) && NoAnchor(s, p)
    requires GivesAtMost(s, m, 0.0)
    ensures forall i | 0 <= i < |p| && i in s :: Iterate(alpha, m, p, n)[i] == 0.0
  {
    forall k: nat | k < n ensures Outside(s, m, Iterate(alpha, m, p, k)) <= 0.0 {
      RowsBoundInflow(s, alpha, m, p, 0.0, k);
    }
    KeepsAtMostAll(s, m);
    LaunderingBound(s, alpha, m, p, 1.0, 0.0, n);
    IterateIsDistribution(alpha, m, p, n);
    NoMass(s, alpha, Iterate(alpha, m, p, n));
  }

  lemma NoMass(s: set<nat>, alpha: real, t: Vec)
    requires 0.0 < alpha && NonNegative(t) && Laundered(alpha, 1.0, 0.0, SumIn(s, t))
    ensures forall i | 0 <= i < |t| && i in s :: t[i] == 0.0
  {
    SumInWithin(s, t);
    NoLaundering(alpha, SumIn(s, t));
  }

  lemma NoLaundering(alpha: real, mass: real)
    requires 0.0 < alpha && mass >= 0.0 && Laundered(alpha, 1.0, 0.0, mass)
    ensures mass == 0.0
  {
    assert mass * (1.0 - (1.0 - alpha) * 1.0) == alpha * mass;
    assert mass > 0.0 ==> alpha * mass > 0.0;
  }
}
