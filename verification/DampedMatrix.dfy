/** The trust matrix with its anti-collusion damping: where each target's inflow comes from, how
    concentrated it is, and how much of a vouch survives. */
module DampedMatrix {
  import opened Vectors
  import opened TrustGraph
  import opened Reputation

  // ---------------------------------------------------------------- inflow by community

  predicate Vouches(g: Edges, src: nat, tgt: nat) { (src, tgt) in g && g[(src, tgt)] > 0.0 }

  /** The positive weight each node gives to `tgt`. */
  function Column(g: Edges, n: nat, tgt: nat): (v: Vec)
    ensures |v| == n && forall i | 0 <= i < n :: v[i] == if Vouches(g, i, tgt) then g[(i, tgt)] else 0.0
  {
    seq(n, i requires 0 <= i < n => if Vouches(g, i, tgt) then g[(i, tgt)] else 0.0)
  }

  function Vouchers(g: Edges, n: nat, tgt: nat): set<nat> { set i: nat | i < n && Vouches(g, i, tgt) }

  function Members(tag: seq<nat>, c: nat): set<nat> { set i: nat | i < |tag| && tag[i] == c }

  /** Weights gathered by community. */
  function ByCommunity(tag: seq<nat>, n: nat, column: Vec): (v: Vec)
    ensures |v| == n && forall c | 0 <= c < n :: v[c] == SumIn(Members(tag, c), column)
  {
    seq(n, c requires 0 <= c < n => SumIn(Members(tag, c), column))
  }

  lemma SumInOneMore(s: set<nat>, v: Vec, i: nat)
    requires i < |v|
    ensures SumIn(s, v[..i + 1]) == SumIn(s, v[..i]) + if i in s then v[i] else 0.0
  {
    assert v[..i + 1][..i] == v[..i];
  }

  lemma ByCommunityOneMore(tag: seq<nat>, n: nat, column: Vec, i: nat)
    requires Labels(tag, n) && |column| == n && i < n
    ensures var v := ByCommunity(tag, n, column[..i]);
            ByCommunity(tag, n, column[..i + 1]) == v[tag[i] := v[tag[i]] + column[i]]
  {
    var v, w := ByCommunity(tag, n, column[..i]), ByCommunity(tag, n, column[..i + 1]);
    forall c | 0 <= c < n ensures w[c] == v[tag[i] := v[tag[i]] + column[i]][c] {
      SumInOneMore(Members(tag, c), column, i);
    }
  }

  /** Grouping loses nothing: the communities' inflows add up to the whole inflow. */
  lemma {:induction false} InflowConserved(tag: seq<nat>, n: nat, column: Vec, i: nat)
    requires Labels(tag, n) && |column| == n && i <= n
    ensures Sum(ByCommunity(tag, n, column[..i])) == Sum(column[..i])
  {
    if i == 0 {
      var v := ByCommunity(tag, n, []);
      assert column[..0] == [];
      assert forall c | 0 <= c < n :: v[c] == 0.0;
      SumInZero(Everyone(n), v);
      SumIsEveryone(v, n);
    } else {
      InflowConserved(tag, n, column, i - 1);
      ByCommunityOneMore(tag, n, column, i - 1);
      var v := ByCommunity(tag, n, column[..i - 1]);
      SumUpdate(v, tag[i - 1], v[tag[i - 1]] + column[i - 1]);
      assert column[..i][..i - 1] == column[..i - 1];
    }
  }

  lemma InflowNonNegative(g: Edges, n: nat, tag: seq<nat>, tgt: nat)
    requires Labels(tag, n)
    ensures NonNegative(Column(g, n, tgt)) && NonNegative(ByCommunity(tag, n, Column(g, n, tgt)))
    ensures Sum(ByCommunity(tag, n, Column(g, n, tgt))) == Sum(Column(g, n, tgt))
    ensures Sum(Column(g, n, tgt)) > 0.0 <==> Vouchers(g, n, tgt) != {}
  {
    var column := Column(g, n, tgt);
    forall c | 0 <= c < n ensures SumIn(Members(tag, c), column) >= 0.0 { SumInWithin(Members(tag, c), column); }
    InflowConserved(tag, n, column, n);
    assert column[..n] == column;
    SumIsEveryone(column, n);
    SumInWithin(Everyone(n), column);
    if Vouchers(g, n, tgt) == {} {
      assert forall i | 0 <= i < n :: i !in Vouchers(g, n, tgt);
      SumInZero(Everyone(n), column);
    } else {
      var i :| i in Vouchers(g, n, tgt);
      assert column[i] > 0.0;
    }
  }

  // ---------------------------------------------------------------- concentration

  datatype Signal = Signal(concentration: real, gate: real, shares: Vec)

  function Squared(x: real): real { x * x }

  function Squares(v: Vec): (w: Vec)
    ensures |w| == |v| && forall i | 0 <= i < |v| :: w[i] == Squared(v[i])
  {
    seq(|v|, i requires 0 <= i < |v| => Squared(v[i]))
  }

  function Ramp(count: nat, k0: real): real requires k0 > 0.0 { count as real / (count as real + k0) }

  /** The funnel signal of one target: how concentrated its inflow is over communities, how many
      vouch, and the share of each community. */
  function SignalOf(g: Edges, n: nat, tag: seq<nat>, tgt: nat, k0: real): (s: Signal)
    requires k0 > 0.0
    ensures |s.shares| == n
  {
    var inflow := ByCommunity(tag, n, Column(g, n, tgt));
    var total := Sum(inflow);
    if total <= 0.0 then Signal(0.0, 0.0, Scale(0.0, inflow))
    else
      var shares := Scale(1.0 / total, inflow);
      Signal(Sum(Squares(shares)), Ramp(|Vouchers(g, n, tgt)|, k0), shares)
  }

  method TargetInflow(g: Edges, n: nat, tag: seq<nat>, tgt: nat) returns (inflow: Vec, vouchers: set<nat>)
    requires Labels(tag, n)
    ensures inflow == ByCommunity(tag, n, Column(g, n, tgt)) && vouchers == Vouchers(g, n, tgt)
  {
    ghost var column := Column(g, n, tgt);
    inflow, vouchers := seq(n, _ => 0.0), {};
    assert column[..0] == [];
    for src := 0 to n
      invariant inflow == ByCommunity(tag, n, column[..src])
      invariant vouchers == set i: nat | i < src && Vouches(g, i, tgt)
    {
      ByCommunityOneMore(tag, n, column, src);
      if Vouches(g, src, tgt) {
        inflow := inflow[tag[src] := inflow[tag[src]] + g[(src, tgt)]];
        vouchers := vouchers + {src};
      }
    }
    assert column[..n] == column;
  }

  method InConcentrationSignals(g: Edges, n: nat, tag: seq<nat>, k0: real) returns (out: seq<Signal>)
    requires Labels(tag, n) && k0 > 0.0
    ensures |out| == n && forall tgt | 0 <= tgt < n :: out[tgt] == SignalOf(g, n, tag, tgt, k0)
  {
    out := [];
    for tgt := 0 to n
      invariant |out| == tgt && forall t | 0 <= t < tgt :: out[t] == SignalOf(g, n, tag, t, k0)
    {
      var inflow, vouchers := TargetInflow(g, n, tag, tgt);
      var total := Sum(inflow);
      if total <= 0.0 {
        out := out + [Signal(0.0, 0.0, Scale(0.0, inflow))];
      } else {
        var shares := Scale(1.0 / total, inflow);
        out := out + [Signal(Sum(Squares(shares)), Ramp(|vouchers|, k0), shares)];
      }
    }
  }

  function Positive(v: Vec): nat {
    if v == [] then 0 else Positive(v[..|v| - 1]) + if v[|v| - 1] > 0.0 then 1 else 0
  }

  lemma Tangent(s: real, x: real)
    ensures Squared(s) >= (x + x) * s - x * x
  {
    assert (s - x) * (s - x) >= 0.0;
    assert (s - x) * (s - x) == s * s - (x + x) * s + x * x;
  }

  lemma SquaresDropLast(v: Vec)
    requires v != []
    ensures Squares(v)[..|v| - 1] == Squares(v[..|v| - 1])
  {
    var n := |v| - 1;
    forall i | 0 <= i < n ensures Squares(v)[i] == Squares(v[..n])[i] { assert v[..n][i] == v[i]; }
  }

  /** The tangent at `x` lies below the squares, entry by entry. */
  lemma {:induction false} AboveTangent(v: Vec, x: real)
    requires NonNegative(v)
    ensures Sum(Squares(v)) >= (x + x) * Sum(v) - (x * x) * Positive(v) as real
  {
    if v != [] {
      hide Squares, Squared;
      var n := |v| - 1;
      assert NonNegative(v[..n]);
      AboveTangent(v[..n], x);
      SquaresDropLast(v);
      Tangent(v[n], x);
      Distributes(x + x, Sum(v[..n]), v[n]);
      Distributes(x * x, Positive(v[..n]) as real, 1.0);
    }
  }

  lemma UnitSquare(s: real)
    requires 0.0 <= s <= 1.0
    ensures Squared(s) <= s
  {
    var one := 1.0;
    ProductMonotone(s, s, one);
    assert s * one == s;
    assert Squared(s) == s * s;
    assert s * s <= s;
    assert Squared(s) <= s;
  }

  lemma SquareEntry(v: Vec, i: nat)
    requires i < |v| && 0.0 <= v[i] <= 1.0
    ensures Squares(v)[i] <= v[i]
  {
    hide Squared;
    UnitSquare(v[i]);
  }

  /** The Herfindahl index of a distribution over `m` communities lies between `1 / m` and 1. */
  lemma HerfindahlBounds(shares: Vec)
    requires Distribution(shares)
    ensures Positive(shares) > 0
    ensures 1.0 / Positive(shares) as real <= Sum(Squares(shares)) <= 1.0
  {
    hide Squares;
    var n := |shares|;
    SumIsEveryone(shares, n);
    SumInWithin(Everyone(n), shares);
    forall i | 0 <= i < n && i in Everyone(n) ensures Squares(shares)[i] <= shares[i] { SquareEntry(shares, i); }
    SumInMonotone(Everyone(n), Squares(shares), shares);
    SumIsEveryone(Squares(shares), n);
    SomePositive(shares);
    AboveTangent(shares, 1.0 / Positive(shares) as real);
    Reciprocal(Positive(shares) as real);
  }

  lemma Reciprocal(m: real)
    requires m > 0.0
    ensures (1.0 / m + 1.0 / m) * 1.0 - ((1.0 / m) * (1.0 / m)) * m == 1.0 / m
  {
    assert (1.0 / m) * m == 1.0;
    assert ((1.0 / m) * (1.0 / m)) * m == (1.0 / m) * ((1.0 / m) * m);
  }

  lemma {:induction false} SomePositive(v: Vec)
    requires NonNegative(v) && Sum(v) > 0.0
    ensures Positive(v) > 0
  {
    if v[|v| - 1] <= 0.0 { SomePositive(v[..|v| - 1]); }
  }

  /** With any voucher at all the shares add up to one, the concentration over `m` communities lies in
      [1/m, 1] and the gate in (0, 1); without, the signal is silent. */
  lemma SignalBounds(g: Edges, n: nat, tag: seq<nat>, tgt: nat, k0: real)
    requires Labels(tag, n) && k0 > 0.0
    ensures var s := SignalOf(g, n, tag, tgt, k0);
            NonNegative(s.shares) && 0.0 <= s.concentration <= 1.0 && 0.0 <= s.gate < 1.0
    ensures var s := SignalOf(g, n, tag, tgt, k0);
            Vouchers(g, n, tgt) != {} ==>
              Sum(s.shares) == 1.0 && Positive(s.shares) > 0 && s.concentration >= 1.0 / Positive(s.shares) as real && s.gate > 0.0
    ensures var s := SignalOf(g, n, tag, tgt, k0);
            Vouchers(g, n, tgt) == {} ==> s.concentration == 0.0 == s.gate && forall c | 0 <= c < n :: s.shares[c] == 0.0
  {
    hide Squares, Ramp, Sum, Column;
    var inflow := ByCommunity(tag, n, Column(g, n, tgt));
    var total := Sum(inflow);
    InflowNonNegative(g, n, tag, tgt);
    RampBounds(|Vouchers(g, n, tgt)|, k0);
    if total > 0.0 {
      SharesOf(inflow, total);
      HerfindahlBounds(Scale(1.0 / total, inflow));
    }
  }

  lemma SharesOf(inflow: Vec, total: real)
    requires NonNegative(inflow) && total == Sum(inflow) > 0.0
    ensures Distribution(Scale(1.0 / total, inflow))
  {
    ScaledNonNegative(1.0 / total, inflow);
    SumScale(1.0 / total, inflow);
  }

  lemma RampBounds(count: nat, k0: real)
    requires k0 > 0.0
    ensures 0.0 <= Ramp(count, k0) < 1.0
    ensures Ramp(count, k0) > 0.0 <==> count > 0
  {
    var r, d := Ramp(count, k0), count as real + k0;
    assert r * d == count as real;
    if r >= 1.0 { ProductMonotone(d, 1.0, r); }
  }

  // ---------------------------------------------------------------- damping

  const BETA := 4.0
  const GAMMA := 4.0

  datatype Settings = Settings(
    damping: bool, community: bool, inConcentration: bool, kappa: real, mu: real, k0: real, rho: real
  )

  ghost predicate Sensible(q: Settings) { q.kappa >= 0.0 && q.mu >= 0.0 && q.k0 > 0.0 && q.rho >= 0.0 }

  /** Evidence per node: over all dimensions, and in the dimension at hand. */
  datatype Evidence = Evidence(total: Vec, inDim: Vec)

  ghost predicate Shaped(n: nat, tag: seq<nat>, ev: Evidence) {
    Labels(tag, n) && |ev.total| == |ev.inDim| == n && NonNegative(ev.total) && NonNegative(ev.inDim)
  }

  function InternalEdges(g: Edges, n: nat, tag: seq<nat>, c: nat): nat
    requires Labels(tag, n)
  {
    |set e | e in g && e.0 < n && e.1 < n && tag[e.0] == c && tag[e.1] == c|
  }

  /** Vouches inside a community against the evidence it holds. */
  function Suspicion(g: Edges, n: nat, tag: seq<nat>, ev: Evidence, c: nat): (x: real)
    requires Shaped(n, tag, ev)
    ensures x >= 0.0
  {
    SumInWithin(Members(tag, c), ev.total);
    var held := 1.0 + SumIn(Members(tag, c), ev.total);
    NonNegativeQuotient(InternalEdges(g, n, tag, c) as real, held);
    InternalEdges(g, n, tag, c) as real / held
  }

  lemma NonNegativeQuotient(x: real, y: real)
    requires x >= 0.0 && y > 0.0
    ensures x / y >= 0.0
  {}

  lemma NonNegativeProduct(x: real, y: real)
    requires x >= 0.0 && y >= 0.0
    ensures x * y >= 0.0
  {}

  function Strain(kappa: real, x: real): (s: real)
    requires kappa >= 0.0 && x >= 0.0
    ensures s >= 0.0
  {
    NonNegativeProduct(kappa, x);
    kappa * x
  }

  function InbredPenalty(q: Settings, g: Edges, n: nat, tag: seq<nat>, ev: Evidence, i: nat, j: nat): (f: real)
    requires Sensible(q) && Shaped(n, tag, ev) && i < n && j < n
    ensures 0.0 < f <= 1.0
  {
    if q.community && tag[i] == tag[j] then
      var x := Suspicion(g, n, tag, ev, tag[i]);
      PenaltyIsFraction(Strain(q.kappa, x));
      Penalty(Strain(q.kappa, x))
    else 1.0
  }

  /** How far a target is from having earned its place in the dimension. */
  function Deficit(q: Settings, ev: Evidence, j: nat): (x: real)
    requires Sensible(q) && NonNegative(ev.inDim) && j < |ev.inDim|
    ensures 0.0 < x <= 1.0 && (x == 1.0 <==> q.rho == 0.0 || ev.inDim[j] == 0.0)
  {
    NonNegativeProduct(q.rho, ev.inDim[j]);
    PenaltyIsFraction(q.rho * ev.inDim[j]);
    Penalty(q.rho * ev.inDim[j])
  }

  function PressureOf(mu: real, conc: real, dom: real, gate: real, deficit: real): (x: real)
    requires mu >= 0.0 && conc >= 0.0 && dom >= 0.0 && gate >= 0.0 && deficit >= 0.0
    ensures x >= 0.0
  {
    NonNegativeProduct(conc, conc);
    NonNegativeProduct(mu, conc * conc);
    NonNegativeProduct(mu * (conc * conc), dom);
    NonNegativeProduct(mu * (conc * conc) * dom, gate);
    NonNegativeProduct(mu * (conc * conc) * dom * gate, deficit);
    mu * (conc * conc) * dom * gate * deficit
  }

  /** The funnel pressure of the vouch i -> j on a target with little evidence of its own. */
  function Pressure(q: Settings, g: Edges, n: nat, tag: seq<nat>, ev: Evidence, i: nat, j: nat): (x: real)
    requires Sensible(q) && Shaped(n, tag, ev) && i < n && j < n
    ensures x >= 0.0
  {
    var s := SignalOf(g, n, tag, j, q.k0);
    SignalBounds(g, n, tag, j, q.k0);
    PressureOf(q.mu, s.concentration, s.shares[tag[i]], s.gate, Deficit(q, ev, j))
  }

  function FunnelPenalty(q: Settings, g: Edges, n: nat, tag: seq<nat>, ev: Evidence, i: nat, j: nat): (f: real)
    requires Sensible(q) && Shaped(n, tag, ev) && i < n && j < n
    ensures 0.0 < f <= 1.0
  {
    if q.inConcentration then
      PenaltyIsFraction(Pressure(q, g, n, tag, ev, i, j));
      Penalty(Pressure(q, g, n, tag, ev, i, j))
    else 1.0
  }

  /** The product of two factors in (0, 1]. */
  function Both(x: real, y: real): (f: real)
    requires 0.0 < x <= 1.0 && 0.0 < y <= 1.0
    ensures 0.0 < f <= x
  {
    ProductMonotone(x, y, 1.0);
    x * y
  }

  /** The damping factor of the vouch i -> j. */
  function Factor(q: Settings, g: Edges, n: nat, tag: seq<nat>, ev: Evidence, i: nat, j: nat): real
    requires Sensible(q) && Shaped(n, tag, ev) && i < n && j < n
  {
    if !q.damping then 1.0
    else
      IndependenceBounds(g, i, j, BETA, GAMMA);
      Both(Both(Independence(g, i, j, BETA, GAMMA), InbredPenalty(q, g, n, tag, ev, i, j)), FunnelPenalty(q, g, n, tag, ev, i, j))
  }

  /** Every damping factor lies in (0, 1], and never above the independence of the vouch. */
  lemma FactorBounds(q: Settings, g: Edges, n: nat, tag: seq<nat>, ev: Evidence, i: nat, j: nat)
    requires Sensible(q) && Shaped(n, tag, ev) && i < n && j < n
    ensures 0.0 < Factor(q, g, n, tag, ev, i, j) <= 1.0
    ensures q.damping ==> Factor(q, g, n, tag, ev, i, j) <= Independence(g, i, j, 4.0, 4.0)
  {
    hide Independence, InbredPenalty, FunnelPenalty;
    IndependenceBounds(g, i, j, BETA, GAMMA);
  }

  lemma BothBounds(x: real, y: real)
    requires 0.0 < x <= 1.0 && 0.0 < y <= 1.0
    ensures Both(x, y) <= x && Both(x, y) <= y && Both(x, y) == x * y
  {
    ProductMonotone(y, x, 1.0);
    assert y * 1.0 == y;
  }

  /** Nor above what its community or the funnel leave of it: the three penalties multiply. */
  lemma FactorParts(q: Settings, g: Edges, n: nat, tag: seq<nat>, ev: Evidence, i: nat, j: nat)
    requires Sensible(q) && Shaped(n, tag, ev) && i < n && j < n && q.damping
    ensures var f, x, y, z := Factor(q, g, n, tag, ev, i, j), Independence(g, i, j, 4.0, 4.0),
        InbredPenalty(q, g, n, tag, ev, i, j), FunnelPenalty(q, g, n, tag, ev, i, j);
      f <= x && f <= y && f <= z && f == x * y * z
  {
    hide Independence, InbredPenalty, FunnelPenalty, Both;
    IndependenceBounds(g, i, j, BETA, GAMMA);
    var x, y, z := Independence(g, i, j, BETA, GAMMA), InbredPenalty(q, g, n, tag, ev, i, j), FunnelPenalty(q, g, n, tag, ev, i, j);
    BothBounds(x, y);
    BothBounds(Both(x, y), z);
  }

  // ---------------------------------------------------------------- the matrix

  function Weights(g: Edges, n: nat, i: nat): (v: Vec)
    ensures |v| == n && forall j | 0 <= j < n :: v[j] == if (i, j) in g then g[(i, j)] else 0.0
  {
    seq(n, j requires 0 <= j < n => if (i, j) in g then g[(i, j)] else 0.0)
  }

  /** Damped weights over the undamped sum, so that what is damped leaks instead of being rescaled. */
  function DampedRow(q: Settings, g: Edges, n: nat, tag: seq<nat>, ev: Evidence, i: nat): (row: Vec)
    requires Sensible(q) && Shaped(n, tag, ev) && i < n
    ensures |row| == n
  {
    var w := Weights(g, n, i);
    var raw := Sum(w);
    if raw <= 0.0 then Scale(0.0, w)
    else seq(n, j requires 0 <= j < n => w[j] * Factor(q, g, n, tag, ev, i, j) / raw)
  }

  function Damped(q: Settings, g: Edges, n: nat, tag: seq<nat>, ev: Evidence): (m: Matrix)
    requires Sensible(q) && Shaped(n, tag, ev)
    ensures Square(m, n) && forall i | 0 <= i < n :: m[i] == DampedRow(q, g, n, tag, ev, i)
  {
    seq(n, i requires 0 <= i < n => DampedRow(q, g, n, tag, ev, i))
  }

  lemma EntryBound(w: real, f: real, r: real, raw: real)
    requires w >= 0.0 && 0.0 < f <= r && raw > 0.0
    ensures 0.0 <= w * f / raw <= r * ((1.0 / raw) * w)
  {
    var x := (1.0 / raw) * w;
    assert x >= 0.0;
    assert w * f / raw == x * f;
    ProductMonotone(x, f, r);
    ProductMonotone(x, 0.0, f);
  }

  lemma EntryKeeps(q: Settings, g: Edges, n: nat, tag: seq<nat>, ev: Evidence, i: nat, j: nat, r: real, raw: real)
    requires Sensible(q) && Shaped(n, tag, ev) && i < n && j < n && NonNegativeWeights(g) && raw == Sum(Weights(g, n, i)) > 0.0
    ensures DampedRow(q, g, n, tag, ev, i)[j] >= 0.0
    ensures r >= 0.0 && (Vouches(g, i, j) ==> Factor(q, g, n, tag, ev, i, j) <= r) ==>
              DampedRow(q, g, n, tag, ev, i)[j] <= Scale(r, Scale(1.0 / raw, Weights(g, n, i)))[j]
  {
    hide Sum, Factor;
    var w, f := Weights(g, n, i)[j], Factor(q, g, n, tag, ev, i, j);
    FactorBounds(q, g, n, tag, ev, i, j);
    EntryBound(w, f, 1.0, raw);
    if w == 0.0 {
      assert w * f / raw == 0.0;
    } else if f <= r {
      EntryBound(w, f, r, raw);
    }
  }

  /** What a row keeps inside `s` is at most the largest factor on its vouches into `s`. */
  lemma RowKeeps(q: Settings, g: Edges, n: nat, tag: seq<nat>, ev: Evidence, i: nat, s: set<nat>, r: real)
    requires Sensible(q) && Shaped(n, tag, ev) && i < n && NonNegativeWeights(g) && r >= 0.0
    requires forall j: nat | j < n && j in s && Vouches(g, i, j) :: Factor(q, g, n, tag, ev, i, j) <= r
    ensures NonNegative(DampedRow(q, g, n, tag, ev, i))
    ensures SumIn(s, DampedRow(q, g, n, tag, ev, i)) <= r
  {
    var w, row := Weights(g, n, i), DampedRow(q, g, n, tag, ev, i);
    var raw := Sum(w);
    hide Sum, SumIn, Factor;
    if raw <= 0.0 {
      SumInZero(s, row);
    } else {
      var share := Scale(1.0 / raw, w);
      var bound := Scale(r, share);
      forall j | 0 <= j < n ensures row[j] >= 0.0 && (j in s ==> row[j] <= bound[j]) {
        EntryKeeps(q, g, n, tag, ev, i, j, r, raw);
      }
      hide DampedRow, Scale, Weights;
      SumInMonotone(s, row, bound);
      ShareBound(s, w, raw, r);
    }
  }

  lemma ShareBound(s: set<nat>, w: Vec, raw: real, r: real)
    requires NonNegative(w) && raw == Sum(w) > 0.0 && r >= 0.0
    ensures SumIn(s, Scale(r, Scale(1.0 / raw, w))) <= r
  {
    hide Sum, SumIn, Scale;
    SharesOf(w, raw);
    var share := Scale(1.0 / raw, w);
    SumInWithin(s, share);
    SumInScale(s, r, share);
    PartOf(r, SumIn(s, share), SumIn(s, Scale(r, share)));
  }

  lemma PartOf(r: real, part: real, y: real)
    requires r >= 0.0 && part <= 1.0 && y == r * part
    ensures y <= r
  {
    ProductMonotone(r, part, 1.0);
  }

  /** Every row of the damped matrix is non-negative and sums to at most one, whatever is switched on. */
  lemma DampedIsSubstochastic(q: Settings, g: Edges, n: nat, tag: seq<nat>, ev: Evidence)
    requires Sensible(q) && Shaped(n, tag, ev) && NonNegativeWeights(g)
    ensures Substochastic(Damped(q, g, n, tag, ev))
  {
    forall i | 0 <= i < n ensures NonNegative(Damped(q, g, n, tag, ev)[i]) && Sum(Damped(q, g, n, tag, ev)[i]) <= 1.0 {
      forall j: nat | j < n ensures Factor(q, g, n, tag, ev, i, j) <= 1.0 { FactorBounds(q, g, n, tag, ev, i, j); }
      RowKeeps(q, g, n, tag, ev, i, Everyone(n), 1.0);
      SumIsEveryone(DampedRow(q, g, n, tag, ev, i), n);
    }
  }

  /** Every vouch inside `s` is returned. */
  ghost predicate Reciprocated(g: Edges, s: set<nat>) {
    forall i, j | i in s && j in s && Vouches(g, i, j) :: (j, i) in g
  }

  /** A fully reciprocal ring keeps at most 1 / (1 + beta) = 1/5 of each member's trust. */
  lemma RingKeepsLittle(q: Settings, g: Edges, n: nat, tag: seq<nat>, ev: Evidence, s: set<nat>)
    requires Sensible(q) && Shaped(n, tag, ev) && NonNegativeWeights(g) && q.damping && Reciprocated(g, s)
    ensures KeepsAtMost(s, Damped(q, g, n, tag, ev), 0.2)
  {
    forall i | 0 <= i < n && i in s ensures SumIn(s, Damped(q, g, n, tag, ev)[i]) <= 0.2 {
      forall j: nat | j < n && j in s && Vouches(g, i, j) ensures Factor(q, g, n, tag, ev, i, j) <= 0.2 {
        FactorBounds(q, g, n, tag, ev, i, j);
        IndependenceBounds(g, i, j, BETA, GAMMA);
      }
      RowKeeps(q, g, n, tag, ev, i, s, 0.2);
    }
  }

  /** With the default anchor weight, a reciprocal ring without evidence to which every outsider gives
      at most a share `b` of its trust never holds more than 0.7 b / 0.86 of the mass. */
  lemma RingHoldsLittle(q: Settings, g: Edges, n: nat, tag: seq<nat>, ev: Evidence, s: set<nat>, p: Vec, b: real, steps: nat)
    requires Sensible(q) && Shaped(n, tag, ev) && NonNegativeWeights(g) && q.damping && Reciprocated(g, s)
    requires |p| == n && Distribution(p) && NoAnchor(s, p) && b >= 0.0
    requires GivesAtMost(s, Damped(q, g, n, tag, ev), b)
    ensures SumIn(s, Iterate(0.3, Damped(q, g, n, tag, ev), p, steps)) * 0.86 <= 0.7 * b
  {
    hide Damped, Iterate, Distribution, SumIn;
    var m := Damped(q, g, n, tag, ev);
    DampedIsSubstochastic(q, g, n, tag, ev);
    RingKeepsLittle(q, g, n, tag, ev, s);
    forall k: nat | k < steps ensures Outside(s, m, Iterate(0.3, m, p, k)) <= b {
      RowsBoundInflow(s, 0.3, m, p, b, k);
    }
    LaunderingBound(s, 0.3, m, p, 0.2, b, steps);
  }
}
