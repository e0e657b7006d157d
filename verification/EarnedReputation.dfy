/** Earned reputation in one dimension from end to end: the graph's damped matrix, fed to the iteration. */
module EarnedReputation {
  import opened Vectors
  import opened TrustGraph
  import opened DampedMatrix
  import opened Reputation

  /** The matrix of the current graph, with communities found by label propagation. */
  method DampedLocalMatrix(q: Settings, g: Edges, n: nat, ev: Evidence) returns (m: Matrix)
    requires Sensible(q) && |ev.total| == |ev.inDim| == n && NonNegative(ev.total) && NonNegative(ev.inDim)
    ensures m == Damped(q, g, n, Sweeps(g, n, 15), ev)
  {
    var tag := Communities(g, n);
    m := Damped(q, g, n, tag, ev);
  }

  function InDimension(agents: seq<Agent>): (v: Vec)
    ensures |v| == |agents| && forall i | 0 <= i < |agents| :: v[i] == agents[i].evidence
  {
    seq(|agents|, i requires 0 <= i < |agents| => agents[i].evidence)
  }

  /** Accounts that bring no evidence of their own (nor, if nobody has any, a proof of being human), and
      that nobody outside vouches for. */
  ghost predicate Sybils(agents: seq<Agent>, g: Edges, s: set<nat>) {
    && (forall i | 0 <= i < |agents| && i in s ::
          && agents[i].evidence == 0.0 && !agents[i].genesis
          && (Sum(Raw(agents, 1.0)) <= 0.0 ==> !agents[i].human))
    && (forall i: nat, j | i < |agents| && i !in s && j in s :: !Vouches(g, i, j))
  }

  ghost predicate HoldNothing(s: set<nat>, r: Vec) { forall i | 0 <= i < |r| && i in s :: r[i] == 0.0 }

  lemma SybilsUnanchored(agents: seq<Agent>, g: Edges, s: set<nat>)
    requires Sybils(agents, g, s)
    ensures NoAnchor(s, Pretrust(agents, 1.0))
  {
    hide Sum;
    var raw, p := Raw(agents, 1.0), Pretrust(agents, 1.0);
    forall i | 0 <= i < |p| && i in s ensures p[i] == 0.0 {
      assert raw[i] == 0.0;
    }
  }

  /** An empty vouch is worth nothing: outsiders give the set nothing at all. */
  lemma SybilsReceiveNothing(q: Settings, g: Edges, agents: seq<Agent>, tag: seq<nat>, ev: Evidence, s: set<nat>)
    requires Sensible(q) && Shaped(|agents|, tag, ev) && NonNegativeWeights(g) && Sybils(agents, g, s)
    ensures GivesAtMost(s, Damped(q, g, |agents|, tag, ev), 0.0)
  {
    forall i | 0 <= i < |agents| && i !in s ensures SumIn(s, Damped(q, g, |agents|, tag, ev)[i]) <= 0.0 {
      RowKeeps(q, g, |agents|, tag, ev, i, s, 0.0);
    }
  }

  ghost predicate Blank(v: Vec) { forall i | 0 <= i < |v| :: v[i] == 0.0 }

  lemma NothingAt(alpha: real, m: Matrix, p: Vec, t: Vec, i: nat)
    requires Square(m, |p|) && |t| == |p| && i < |p| && Blank(p) && Blank(t)
    ensures Next(alpha, m, p, t)[i] == 0.0
  {
    hide Next, Sum, SumIn;
    var g := Gifts({i}, m, t);
    forall k | 0 <= k < |t| ensures g[k] == 0.0 { assert t[k] == 0.0; }
    NextInto({i}, alpha, m, p, t);
    SumInZero({i}, g);
    SumInZero(Others({i}, |t|), g);
    SumInOne(i, Next(alpha, m, p, t));
    assert Emitted(alpha, 0.0) == 0.0;
  }

  lemma NothingNext(alpha: real, m: Matrix, p: Vec, t: Vec)
    requires Square(m, |p|) && |t| == |p| && Blank(p) && Blank(t)
    ensures Blank(Next(alpha, m, p, t))
  {
    var u := Next(alpha, m, p, t);
    hide Next;
    forall i: nat | i < |p| ensures u[i] == 0.0 { NothingAt(alpha, m, p, t, i); }
  }

  /** Without any anchor there is no reputation. */
  lemma {:induction false} NothingFromNothing(alpha: real, m: Matrix, p: Vec, n: nat)
    requires Square(m, |p|) && Blank(p)
    ensures Blank(Iterate(alpha, m, p, n))
  {
    hide Next, Blank;
    if n > 0 {
      NothingFromNothing(alpha, m, p, n - 1);
      NothingNext(alpha, m, p, Iterate(alpha, m, p, n - 1));
    }
  }

  lemma AllZero(p: Vec)
    requires NonNegative(p) && Sum(p) == 0.0
    ensures Blank(p)
  {
    if exists i :: 0 <= i < |p| && p[i] != 0.0 {
      var i :| 0 <= i < |p| && p[i] != 0.0;
      SumInOne(i, p);
      SumInWithin({i}, p);
    }
  }

  /** Sybils from the graph up: whatever they vouch for each other, and whatever is switched on, they hold
      exactly nothing at every step. */
  lemma SybilsEarnNothing(
    q: Settings, g: Edges, agents: seq<Agent>, tag: seq<nat>, ev: Evidence, s: set<nat>, alpha: real, steps: nat
  )
    requires Sensible(q) && Shaped(|agents|, tag, ev) && NonNegativeWeights(g) && Evident(agents, 1.0)
    requires 0.0 < alpha <= 1.0 && Sybils(agents, g, s)
    ensures HoldNothing(s, Iterate(alpha, Damped(q, g, |agents|, tag, ev), Pretrust(agents, 1.0), steps))
  {
    var m, p := Damped(q, g, |agents|, tag, ev), Pretrust(agents, 1.0);
    PretrustIsDistribution(agents, 1.0);
    if Distribution(p) {
      DampedIsSubstochastic(q, g, |agents|, tag, ev);
      SybilsUnanchored(agents, g, s);
      SybilsReceiveNothing(q, g, agents, tag, ev, s);
      SybilsHoldNothing(s, alpha, m, p, steps);
    } else {
      AllZero(p);
      NothingFromNothing(alpha, m, p, steps);
    }
  }

  lemma NothingScaled(s: set<nat>, scale: real, t: Vec)
    requires HoldNothing(s, t)
    ensures HoldNothing(s, Scale(scale, t))
  {}

  /** The whole computation: communities, damping, the anchor, and the iteration to convergence. */
  method OfDimension(
    q: Settings, g: Edges, agents: seq<Agent>, total: Vec, alpha: real, iterations: nat, tol: real, scale: real
  ) returns (r: Vec, steps: nat)
    requires Sensible(q) && NonNegativeWeights(g) && |total| == |agents| && NonNegative(total) && Evident(agents, 1.0)
    ensures var ev := Evidence(total, InDimension(agents));
      var m := Damped(q, g, |agents|, Sweeps(g, |agents|, 15), ev);
      && StopsAt(alpha, m, Pretrust(agents, 1.0), iterations, tol, steps)
      && r == Scale(scale, Iterate(alpha, m, Pretrust(agents, 1.0), steps))
    ensures 0.0 < alpha <= 1.0 ==> forall s: set<nat> | Sybils(agents, g, s) :: HoldNothing(s, r)
  {
    hide Damped, Pretrust, Iterate, Scale, StopsAt, Sybils, HoldNothing, Sweeps;
    var ev := Evidence(total, InDimension(agents));
    var m := DampedLocalMatrix(q, g, |agents|, ev);
    r, steps := ReputationDimension(agents, m, alpha, iterations, tol, scale);
    if 0.0 < alpha <= 1.0 {
      forall s: set<nat> | Sybils(agents, g, s) ensures HoldNothing(s, r) {
        SybilsEarnNothing(q, g, agents, Sweeps(g, |agents|, 15), ev, s, alpha, steps);
        NothingScaled(s, scale, Iterate(alpha, m, Pretrust(agents, 1.0), steps));
      }
    }
  }
}
