/** The graph of vouches, one weighted digraph per dimension, and its anti-collusion signals. Accounts
    are numbered in the order of their identifiers; the nodes under study are `0 .. n - 1`. */
module TrustGraph {
  import opened Bytes
  import opened Vectors

  type Edges = map<(nat, nat), real>

  ghost predicate NoSelfVouch(g: Edges) { forall e | e in g :: e.0 != e.1 }

  ghost predicate NonNegativeWeights(g: Edges) { forall e | e in g :: g[e] >= 0.0 }

  class TrustGraph {
    var edges: map<string, Edges>

    constructor ()
      ensures edges == map[]
    {
      edges := map[];
    }

    function In(dim: string): Edges
      reads this
    {
      if dim in edges then edges[dim] else map[]
    }

    /** Weights add up; nobody vouches for themselves; other dimensions and edges stay. */
    method Attest(source: nat, target: nat, dim: string, weight: real)
      modifies this
      ensures source == target ==> edges == old(edges)
      ensures source != target ==> forall e ::
        (e in In(dim) <==> e in old(In(dim)) || e == (source, target)) &&
        (e in In(dim) ==> In(dim)[e] == (if e in old(In(dim)) then old(In(dim))[e] else 0.0) + if e == (source, target) then weight else 0.0)
      ensures forall d | d != dim :: In(d) == old(In(d))
      ensures NoSelfVouch(old(In(dim))) ==> NoSelfVouch(In(dim))
      ensures NonNegativeWeights(old(In(dim))) && weight >= 0.0 ==> NonNegativeWeights(In(dim))
    {
      if source == target { return; }
      var g := In(dim);
      var current := if (source, target) in g then g[(source, target)] else 0.0;
      edges := edges[dim := g[(source, target) := current + weight]];
    }
  }

  // ---------------------------------------------------------------- independence of a vouch

  function OutNeighbours(g: Edges, i: nat): set<nat> { set e | e in g && e.0 == i :: e.1 }

  /** Jaccard overlap of whom the two ends vouch for, each other aside. */
  function Overlap(g: Edges, i: nat, j: nat): real {
    var ni, nj := OutNeighbours(g, i) - {j}, OutNeighbours(g, j) - {i};
    if ni + nj == {} then 0.0 else |ni * nj| as real / |ni + nj| as real
  }

  lemma Ratio(a: real, b: real)
    requires 0.0 <= a <= b && b > 0.0
    ensures 0.0 <= a / b <= 1.0
    ensures a / b == 0.0 <==> a == 0.0
  {
    assert (a / b) * b == a;
  }

  /** The overlap is a fraction, zero exactly when the two ends vouch for no one in common. */
  lemma OverlapInUnit(g: Edges, i: nat, j: nat)
    ensures 0.0 <= Overlap(g, i, j) <= 1.0
    ensures Overlap(g, i, j) == 0.0 <==> OutNeighbours(g, i) * OutNeighbours(g, j) - {i, j} == {}
  {
    var ni, nj := OutNeighbours(g, i) - {j}, OutNeighbours(g, j) - {i};
    assert ni * nj == OutNeighbours(g, i) * OutNeighbours(g, j) - {i, j};
    if ni + nj != {} {
      CardinalityOfSubset(ni * nj, ni + nj);
      CardinalityOfSubset({}, ni + nj);
      assert |ni + nj| > 0;
      Ratio(|ni * nj| as real, |ni + nj| as real);
    }
  }

  function Penalty(x: real): real requires x >= 0.0 { 1.0 / (1.0 + x) }

  lemma PenaltyIsFraction(x: real)
    requires x >= 0.0
    ensures 0.0 < Penalty(x) <= 1.0
    ensures Penalty(x) == 1.0 <==> x == 0.0
  {
    assert Penalty(x) * (1.0 + x) == 1.0;
  }

  lemma Reciprocals(p: real, q: real)
    requires 0.0 < p <= q
    ensures 1.0 / q <= 1.0 / p
  {
    var a, b := 1.0 / p, 1.0 / q;
    assert a * p == 1.0 && b * q == 1.0;
    ProductMonotone(a, p, q);
    Cancel(b, a, q);
  }

  lemma PenaltyOrder(x: real, y: real)
    requires 0.0 <= x <= y
    ensures Penalty(y) <= Penalty(x)
  {
    Reciprocals(1.0 + x, 1.0 + y);
  }

  lemma Cancel(b: real, a: real, c: real)
    requires c > 0.0 && b * c <= a * c
    ensures b <= a
  {
    assert (a - b) * c >= 0.0;
  }

  /** How inbred a vouch is: reciprocity and overlap, weighted. */
  function Inbreeding(g: Edges, i: nat, j: nat, beta: real, gamma: real): real {
    Weighted(beta, gamma, (j, i) in g, Overlap(g, i, j))
  }

  function Weighted(beta: real, gamma: real, reciprocal: bool, overlap: real): real {
    (if reciprocal then beta else 0.0) + gamma * overlap
  }

  lemma WeightedBounds(beta: real, gamma: real, reciprocal: bool, overlap: real)
    requires beta >= 0.0 && gamma >= 0.0 && 0.0 <= overlap <= 1.0
    ensures 0.0 <= Weighted(beta, gamma, reciprocal, overlap) <= beta + gamma
    ensures reciprocal ==> Weighted(beta, gamma, reciprocal, overlap) >= beta
  {
    ProductMonotone(gamma, 0.0, overlap);
    ProductMonotone(gamma, overlap, 1.0);
  }

  lemma WeightedZero(beta: real, gamma: real, reciprocal: bool, overlap: real)
    requires beta > 0.0 && gamma > 0.0 && 0.0 <= overlap
    ensures Weighted(beta, gamma, reciprocal, overlap) == 0.0 <==> !reciprocal && overlap == 0.0
  {
    if overlap > 0.0 {
      var x := gamma * overlap;
      assert x > 0.0;
      assert Weighted(beta, gamma, reciprocal, overlap) >= x;
    }
  }

  lemma InbreedingBounds(g: Edges, i: nat, j: nat, beta: real, gamma: real)
    requires beta >= 0.0 && gamma >= 0.0
    ensures 0.0 <= Inbreeding(g, i, j, beta, gamma) <= beta + gamma
    ensures (j, i) in g ==> Inbreeding(g, i, j, beta, gamma) >= beta
    ensures beta > 0.0 && gamma > 0.0 ==> (Inbreeding(g, i, j, beta, gamma) == 0.0 <==> (j, i) !in g && Overlap(g, i, j) == 0.0)
  {
    hide Weighted, Overlap;
    OverlapInUnit(g, i, j);
    WeightedBounds(beta, gamma, (j, i) in g, Overlap(g, i, j));
    if beta > 0.0 && gamma > 0.0 { WeightedZero(beta, gamma, (j, i) in g, Overlap(g, i, j)); }
  }

  function Independence(g: Edges, i: nat, j: nat, beta: real, gamma: real): real
    requires beta >= 0.0 && gamma >= 0.0
  {
    InbreedingBounds(g, i, j, beta, gamma);
    Penalty(Inbreeding(g, i, j, beta, gamma))
  }

  /** Independence lies between `1 / (1 + beta + gamma)` and 1, is at most `1 / (1 + beta)` on a
      mutual vouch, and is 1 exactly when there is neither reciprocity nor a common neighbour. */
  lemma IndependenceBounds(g: Edges, i: nat, j: nat, beta: real, gamma: real)
    requires beta >= 0.0 && gamma >= 0.0
    ensures 0.0 < Penalty(beta + gamma) <= Independence(g, i, j, beta, gamma) <= 1.0
    ensures (j, i) in g ==> Independence(g, i, j, beta, gamma) <= Penalty(beta)
    ensures beta > 0.0 && gamma > 0.0 ==>
      (Independence(g, i, j, beta, gamma) == 1.0 <==> (j, i) !in g && OutNeighbours(g, i) * OutNeighbours(g, j) - {i, j} == {})
  {
    hide Penalty, Inbreeding;
    InbreedingBounds(g, i, j, beta, gamma);
    OverlapInUnit(g, i, j);
    var x := Inbreeding(g, i, j, beta, gamma);
    PenaltyIsFraction(x);
    PenaltyIsFraction(beta + gamma);
    PenaltyOrder(x, beta + gamma);
    if (j, i) in g { PenaltyOrder(beta, x); }
  }

  /** Whom both ends vouch for, and whom either does, the two ends aside. */
  function Common(g: Edges, i: nat, j: nat): set<nat> { set e | e in g && e.0 == i && (j, e.1) in g :: e.1 }

  function Either(g: Edges, i: nat, j: nat): set<nat> {
    set e | e in g && (e.0 == i || e.0 == j) && e.1 != i && e.1 != j :: e.1
  }

  /** In counts: `1 / independence` is one, plus beta if the vouch is returned, plus gamma for the share of common ones
      among all whom either end vouches for. */
  lemma IndependenceIs(g: Edges, i: nat, j: nat, beta: real, gamma: real)
    requires NoSelfVouch(g) && beta >= 0.0 && gamma >= 0.0
    ensures var returned, common, either := if (j, i) in g then beta else 0.0, |Common(g, i, j)| as real, |Either(g, i, j)| as real;
      if either == 0.0 then Independence(g, i, j, beta, gamma) * (1.0 + returned) == 1.0
      else Independence(g, i, j, beta, gamma) * (either + returned * either + gamma * common) == either
  {
    hide Common, Either, Overlap, Penalty;
    var returned, x := if (j, i) in g then beta else 0.0, Inbreeding(g, i, j, beta, gamma);
    InbreedingBounds(g, i, j, beta, gamma);
    OverlapIs(g, i, j);
    if |Either(g, i, j)| == 0 {
      NoOverlap(returned, gamma, Overlap(g, i, j), x);
    } else {
      CountedPenalty(returned, gamma, |Common(g, i, j)| as real, |Either(g, i, j)| as real, x);
    }
  }

  lemma CommonIs(g: Edges, i: nat, j: nat)
    requires NoSelfVouch(g)
    ensures (OutNeighbours(g, i) - {j}) * (OutNeighbours(g, j) - {i}) == Common(g, i, j)
  {}

  lemma EitherIs(g: Edges, i: nat, j: nat)
    requires NoSelfVouch(g)
    ensures (OutNeighbours(g, i) - {j}) + (OutNeighbours(g, j) - {i}) == Either(g, i, j)
  {}

  lemma OverlapIs(g: Edges, i: nat, j: nat)
    requires NoSelfVouch(g)
    ensures var common, either := |Common(g, i, j)| as real, |Either(g, i, j)| as real;
      Overlap(g, i, j) == if either == 0.0 then 0.0 else common / either
  {
    CommonIs(g, i, j);
    EitherIs(g, i, j);
    hide Common, Either, OutNeighbours, NoSelfVouch;
    var either := Either(g, i, j);
    assert either != {} <==> |either| > 0;
  }

  lemma NoOverlap(returned: real, gamma: real, overlap: real, x: real)
    requires overlap == 0.0 && x >= 0.0 && x == returned + gamma * overlap
    ensures Penalty(x) * (1.0 + returned) == 1.0
  {
    assert gamma * overlap == 0.0;
    assert Penalty(x) * (1.0 + x) == 1.0;
  }

  lemma CountedPenalty(returned: real, gamma: real, common: real, either: real, x: real)
    requires either > 0.0 && x >= 0.0 && x == returned + gamma * (common / either)
    ensures Penalty(x) * (either + returned * either + gamma * common) == either
  {
    var o, p := common / either, Penalty(x);
    assert o * either == common && p * (1.0 + x) == 1.0;
    Associates(gamma, o, either);
    assert (1.0 + x) * either == either + returned * either + gamma * common;
    Associates(p, 1.0 + x, either);
  }

  // ---------------------------------------------------------------- communities by label propagation

  /** The neighbours of `i` among `0 .. n - 1`, vouches taken in either direction. */
  function Adjacent(g: Edges, n: nat, i: nat): (a: set<nat>)
    ensures forall j :: j in a <==> j < n && i < n && ((i, j) in g || (j, i) in g)
  {
    set j: nat | j < n && i < n && ((i, j) in g || (j, i) in g)
  }

  function Holders(tag: seq<nat>, nbrs: set<nat>, c: nat): set<nat> {
    set m | m in nbrs && (m < |tag| && tag[m] == c)
  }

  function Count(tag: seq<nat>, nbrs: set<nat>, c: nat): nat { |Holders(tag, nbrs, c)| }

  predicate Labels(tag: seq<nat>, n: nat) { |tag| == n && forall i | 0 <= i < n :: tag[i] < n }

  /** The first most common label among `0 .. c - 1`. */
  function Best(tag: seq<nat>, nbrs: set<nat>, c: nat): (b: nat)
    requires c > 0
    ensures b < c
  {
    if c == 1 then 0
    else
      var b := Best(tag, nbrs, c - 1);
      if Count(tag, nbrs, c - 1) > Count(tag, nbrs, b) then c - 1 else b
  }

  /** `b` is the smallest label among those most common in `nbrs`. */
  ghost predicate Dominant(tag: seq<nat>, nbrs: set<nat>, b: nat) {
    && Count(tag, nbrs, b) > 0
    && (forall c: nat :: Count(tag, nbrs, c) <= Count(tag, nbrs, b))
    && (forall c: nat | c < b :: Count(tag, nbrs, c) < Count(tag, nbrs, b))
  }

  lemma {:induction false} BestBelow(tag: seq<nat>, nbrs: set<nat>, c: nat)
    requires c > 0
    ensures forall k: nat | k < c :: Count(tag, nbrs, k) <= Count(tag, nbrs, Best(tag, nbrs, c))
    ensures forall k: nat | k < Best(tag, nbrs, c) :: Count(tag, nbrs, k) < Count(tag, nbrs, Best(tag, nbrs, c))
  {
    if c > 1 { BestBelow(tag, nbrs, c - 1); }
  }

  lemma BestIsDominant(tag: seq<nat>, n: nat, nbrs: set<nat>)
    requires Labels(tag, n) && nbrs != {} && forall m | m in nbrs :: m < n
    ensures n > 0 && Dominant(tag, nbrs, Best(tag, nbrs, n))
  {
    var m :| m in nbrs;
    assert m in Holders(tag, nbrs, tag[m]);
    BestBelow(tag, nbrs, n);
    assert Count(tag, nbrs, tag[m]) <= Count(tag, nbrs, Best(tag, nbrs, n));
    forall c: nat | c >= n ensures Count(tag, nbrs, c) == 0 { assert Holders(tag, nbrs, c) == {}; }
  }

  lemma CountOne(tag: seq<nat>, s: set<nat>, m: nat, c: nat)
    requires m !in s && m < |tag|
    ensures Count(tag, s + {m}, c) == Count(tag, s, c) + if tag[m] == c then 1 else 0
  {
    assert Holders(tag, s + {m}, c) == Holders(tag, s, c) + if tag[m] == c then {m} else {};
  }

  method Counts(tag: seq<nat>, n: nat, nbrs: set<nat>) returns (count: seq<nat>)
    requires Labels(tag, n) && forall m | m in nbrs :: m < n
    ensures |count| == n && forall c | 0 <= c < n :: count[c] == Count(tag, nbrs, c)
  {
    count := seq(n, _ => 0);
    var todo := nbrs;
    while todo != {}
      invariant todo <= nbrs && |count| == n
      invariant forall c | 0 <= c < n :: count[c] == Count(tag, nbrs - todo, c)
      decreases |todo|
    {
      var m :| m in todo;
      ghost var seen := nbrs - todo;
      forall c | 0 <= c < n ensures Count(tag, seen + {m}, c) == Count(tag, seen, c) + if tag[m] == c then 1 else 0 {
        CountOne(tag, seen, m, c);
      }
      assert nbrs - (todo - {m}) == seen + {m};
      todo := todo - {m};
      count := count[tag[m] := count[tag[m]] + 1];
    }
    assert nbrs - todo == nbrs;
  }

  /** The most common label of the neighbours, the smallest on a tie. */
  method MostCommon(tag: seq<nat>, n: nat, nbrs: set<nat>) returns (best: nat)
    requires Labels(tag, n) && n > 0 && forall m | m in nbrs :: m < n
    ensures best == Best(tag, nbrs, n)
  {
    var count := Counts(tag, n, nbrs);
    best := 0;
    for c := 1 to n
      invariant best == Best(tag, nbrs, c)
    {
      if count[c] > count[best] { best := c; }
    }
  }

  // A node takes the label its neighbours favour.
  function Relabel(g: Edges, n: nat, tag: seq<nat>, x: nat): (r: seq<nat>)
    requires Labels(tag, n) && x < n
    ensures Labels(r, n)
  {
    if Adjacent(g, n, x) == {} then tag else tag[x := Best(tag, Adjacent(g, n, x), n)]
  }

  predicate Nodes(who: seq<nat>, n: nat) { forall k | 0 <= k < |who| :: who[k] < n }

  /** The labels after the nodes of `who` have updated in place, one after another. */
  function Visit(g: Edges, n: nat, tag: seq<nat>, who: seq<nat>): (r: seq<nat>)
    requires Labels(tag, n) && Nodes(who, n)
    ensures Labels(r, n)
  {
    if who == [] then tag else Relabel(g, n, Visit(g, n, tag, who[..|who| - 1]), who[|who| - 1])
  }

  function UpTo(n: nat): (s: seq<nat>)
    ensures |s| == n && forall i | 0 <= i < n :: s[i] == i
  {
    seq(n, i => i)
  }

  function Sweeps(g: Edges, n: nat, rounds: nat): (r: seq<nat>)
    ensures Labels(r, n)
  {
    if rounds == 0 then UpTo(n) else Visit(g, n, Sweeps(g, n, rounds - 1), UpTo(n))
  }

  method Sweep(g: Edges, n: nat, before: seq<nat>) returns (tag: seq<nat>, changed: bool)
    requires Labels(before, n)
    ensures tag == Visit(g, n, before, UpTo(n)) && changed == (tag != before)
  {
    tag, changed := before, false;
    var order := UpTo(n);
    for k := 0 to n
      invariant Labels(tag, n) && tag == Visit(g, n, before, order[..k])
      invariant forall i | k <= i < n :: tag[i] == before[i]
      invariant changed == exists i :: 0 <= i < k && tag[i] != before[i]
    {
      assert order[..k + 1][..k] == order[..k];
      var neighbors := Adjacent(g, n, k);
      if neighbors == {} { continue; }
      var best := MostCommon(tag, n, neighbors);
      ghost var was := tag;
      if tag[k] != best {
        tag := tag[k := best];
        changed := true;
      }
      assert tag == was[k := best];
      assert forall i | 0 <= i < k :: tag[i] == was[i];
    }
    assert order[..n] == order;
  }

  lemma {:induction false} StableStays(g: Edges, n: nat, r: nat, k: nat)
    requires r <= k && Sweeps(g, n, r + 1) == Sweeps(g, n, r)
    ensures Sweeps(g, n, k) == Sweeps(g, n, r)
  {
    if r < k { StableStays(g, n, r, k - 1); }
  }

  const MAX_SWEEPS: nat := 15

  /** At most fifteen sweeps; stopping at the first sweep that changes nothing gives the same labels
      as going on to the end. */
  method Communities(g: Edges, n: nat) returns (tag: seq<nat>)
    ensures tag == Sweeps(g, n, 15)
  {
    tag := UpTo(n);
    for r := 0 to MAX_SWEEPS
      invariant tag == Sweeps(g, n, r)
    {
      var changed;
      tag, changed := Sweep(g, n, tag);
      if !changed {
        StableStays(g, n, r, MAX_SWEEPS);
        return;
      }
    }
  }

  // ---------------------------------------------------------------- labels stay in their component

  predicate Linked(g: Edges, n: nat, i: nat, j: nat) { j in Adjacent(g, n, i) }

  ghost predicate Path(g: Edges, n: nat, path: seq<nat>) {
    path != [] && forall k | 0 <= k < |path| - 1 :: Linked(g, n, path[k], path[k + 1])
  }

  ghost predicate Joins(g: Edges, n: nat, path: seq<nat>, i: nat, j: nat) {
    Path(g, n, path) && path[0] == i && path[|path| - 1] == j
  }

  /** `i` and `j` lie in one component of the undirected vouch graph. */
  ghost predicate Connected(g: Edges, n: nat, i: nat, j: nat) { exists path :: Joins(g, n, path, i, j) }

  lemma ConnectedSelf(g: Edges, n: nat, i: nat)
    ensures Connected(g, n, i, i)
  {
    assert Joins(g, n, [i], i, i);
  }

  lemma ConnectedStep(g: Edges, n: nat, i: nat, m: nat, j: nat)
    requires Linked(g, n, i, m) && Connected(g, n, m, j)
    ensures Connected(g, n, i, j)
  {
    var path :| Joins(g, n, path, m, j);
    var longer := [i] + path;
    forall k | 0 <= k < |longer| - 1 ensures Linked(g, n, longer[k], longer[k + 1]) {
      if k > 0 { assert Linked(g, n, path[k - 1], path[k - 1 + 1]); }
    }
    assert Joins(g, n, longer, i, j);
  }

  lemma {:induction false} ConnectedJoin(g: Edges, n: nat, path: seq<nat>, i: nat, m: nat, j: nat)
    requires Joins(g, n, path, i, m) && Connected(g, n, m, j)
    ensures Connected(g, n, i, j)
    decreases |path|
  {
    if |path| > 1 {
      assert Linked(g, n, path[0], path[0 + 1]);
      var rest := path[1..];
      forall k | 0 <= k < |rest| - 1 ensures Linked(g, n, rest[k], rest[k + 1]) {
        assert Linked(g, n, path[k + 1], path[k + 1 + 1]);
      }
      ConnectedJoin(g, n, rest, path[1], m, j);
      ConnectedStep(g, n, i, path[1], j);
    }
  }

  lemma {:induction false} ConnectedBack(g: Edges, n: nat, path: seq<nat>, i: nat, j: nat)
    requires Joins(g, n, path, i, j)
    ensures Connected(g, n, j, i)
    decreases |path|
  {
    ConnectedSelf(g, n, i);
    if |path| > 1 {
      assert Linked(g, n, path[0], path[0 + 1]);
      var rest := path[1..];
      forall k | 0 <= k < |rest| - 1 ensures Linked(g, n, rest[k], rest[k + 1]) {
        assert Linked(g, n, path[k + 1], path[k + 1 + 1]);
      }
      ConnectedBack(g, n, rest, path[1], j);
      var back :| Joins(g, n, back, j, path[1]);
      ConnectedStep(g, n, path[1], i, i);
      ConnectedJoin(g, n, back, j, path[1], i);
    }
  }

  ghost predicate AtHome(g: Edges, n: nat, tag: seq<nat>) {
    Labels(tag, n) && forall i | 0 <= i < n :: Connected(g, n, i, tag[i])
  }

  lemma {:induction false} VisitAtHome(g: Edges, n: nat, tag: seq<nat>, who: seq<nat>)
    requires AtHome(g, n, tag) && Nodes(who, n)
    ensures AtHome(g, n, Visit(g, n, tag, who))
  {
    if who != [] {
      var x := who[|who| - 1];
      VisitAtHome(g, n, tag, who[..|who| - 1]);
      RelabelAtHome(g, n, Visit(g, n, tag, who[..|who| - 1]), x);
    }
  }

  lemma RelabelAtHome(g: Edges, n: nat, tag: seq<nat>, x: nat)
    requires AtHome(g, n, tag) && x < n
    ensures AtHome(g, n, Relabel(g, n, tag, x))
  {
    var nbrs := Adjacent(g, n, x);
    if nbrs != {} {
      BestIsDominant(tag, n, nbrs);
      var b := Best(tag, nbrs, n);
      var m :| m in Holders(tag, nbrs, b);
      assert Connected(g, n, m, tag[m]);
      ConnectedStep(g, n, x, m, b);
    }
  }

  /** Whatever order the nodes update in, and however often, a label never leaves its component. */
  lemma LabelsStayHome(g: Edges, n: nat, who: seq<nat>)
    requires Nodes(who, n)
    ensures AtHome(g, n, Visit(g, n, UpTo(n), who))
  {
    forall i: nat | i < n ensures Connected(g, n, i, UpTo(n)[i]) { ConnectedSelf(g, n, i); }
    VisitAtHome(g, n, UpTo(n), who);
  }

  lemma {:induction false} SweepsStayHome(g: Edges, n: nat, rounds: nat)
    ensures AtHome(g, n, Sweeps(g, n, rounds))
  {
    if rounds == 0 {
      LabelsStayHome(g, n, []);
    } else {
      SweepsStayHome(g, n, rounds - 1);
      VisitAtHome(g, n, Sweeps(g, n, rounds - 1), UpTo(n));
    }
  }

  /** Two nodes that end in one community are connected by vouches. */
  lemma SameCommunityIsConnected(g: Edges, n: nat, i: nat, j: nat)
    requires i < n && j < n && Sweeps(g, n, MAX_SWEEPS)[i] == Sweeps(g, n, MAX_SWEEPS)[j]
    ensures Connected(g, n, i, j)
  {
    var tag := Sweeps(g, n, MAX_SWEEPS);
    SweepsStayHome(g, n, MAX_SWEEPS);
    assert Connected(g, n, i, tag[i]) && Connected(g, n, j, tag[j]);
    var from :| Joins(g, n, from, i, tag[i]);
    var to :| Joins(g, n, to, j, tag[j]);
    ConnectedBack(g, n, to, j, tag[j]);
    ConnectedJoin(g, n, from, i, tag[i], j);
  }

  // ---------------------------------------------------------------- what the labels settle on

  /** The labels when the first `k` nodes of a sweep have updated. */
  function Partly(g: Edges, n: nat, tag: seq<nat>, k: nat): (r: seq<nat>)
    requires Labels(tag, n) && k <= n
    ensures Labels(r, n)
  {
    Visit(g, n, tag, UpTo(n)[..k])
  }

  lemma PartlyStep(g: Edges, n: nat, tag: seq<nat>, k: nat)
    requires Labels(tag, n) && k < n
    ensures Partly(g, n, tag, k + 1) == Relabel(g, n, Partly(g, n, tag, k), k)
    ensures Partly(g, n, tag, 0) == tag && Partly(g, n, tag, n) == Visit(g, n, tag, UpTo(n))
  {
    assert UpTo(n)[..k + 1][..k] == UpTo(n)[..k];
    assert UpTo(n)[..n] == UpTo(n) && UpTo(n)[..0] == [];
  }

  lemma {:induction false} PartlyKeeps(g: Edges, n: nat, tag: seq<nat>, k: nat, m: nat, i: nat)
    requires Labels(tag, n) && k <= m <= n && i < n && (i < k || m <= i)
    ensures Partly(g, n, tag, m)[i] == Partly(g, n, tag, k)[i]
    decreases m
  {
    if k < m {
      PartlyKeeps(g, n, tag, k, m - 1, i);
      PartlyStep(g, n, tag, m - 1);
    }
  }

  /** A sweep that changes nothing leaves every node with neighbours the smallest of their most common labels. */
  lemma StableIsDominant(g: Edges, n: nat, tag: seq<nat>, i: nat)
    requires Labels(tag, n) && Visit(g, n, tag, UpTo(n)) == tag && i < n && Adjacent(g, n, i) != {}
    ensures Dominant(tag, Adjacent(g, n, i), tag[i])
  {
    hide Visit, Best, Dominant;
    forall k: nat, j: nat | k <= n && j < n ensures Partly(g, n, tag, k)[j] == tag[j] {
      PartlyKeeps(g, n, tag, if j < k then k else 0, if j < k then n else k, j);
      PartlyStep(g, n, tag, j);
    }
    assert Partly(g, n, tag, i) == tag;
    PartlyStep(g, n, tag, i);
    assert Partly(g, n, tag, i + 1)[i] == Best(tag, Adjacent(g, n, i), n);
    BestIsDominant(tag, n, Adjacent(g, n, i));
  }

  /** Accounts tied to nobody but `hub`, and it to nobody but them. */
  ghost predicate Star(g: Edges, n: nat, hub: nat, rim: set<nat>) {
    && hub < n && rim != {} && hub !in rim && Adjacent(g, n, hub) == rim
    && forall f | f in rim :: Adjacent(g, n, f) == {hub}
  }

  ghost predicate OneLabel(tag: seq<nat>, hub: nat, rim: set<nat>, l: nat) requires hub < |tag| {
    tag[hub] == l && forall f | f in rim :: f < |tag| && tag[f] == l
  }

  /** Among neighbours of one label that label is best. */
  lemma OnlyLabel(tag: seq<nat>, n: nat, nbrs: set<nat>, l: nat)
    requires Labels(tag, n) && nbrs != {} && forall m | m in nbrs :: m < n && tag[m] == l
    ensures n > 0 && Best(tag, nbrs, n) == l
  {
    BestIsDominant(tag, n, nbrs);
    var b := Best(tag, nbrs, n);
    hide Best;
    var m :| m in Holders(tag, nbrs, b);
  }

  /** Before the hub's turn, the accounts that had theirs have taken its label. */
  ghost predicate Gathering(tag: seq<nat>, n: nat, hub: nat, rim: set<nat>, k: nat) {
    |tag| == n && hub < n && tag[hub] == hub && forall f | f in rim :: f < n && tag[f] == if f < k then hub else f
  }

  lemma {:induction false} BeforeHub(g: Edges, n: nat, hub: nat, rim: set<nat>, k: nat)
    requires Star(g, n, hub, rim) && k <= hub
    ensures Gathering(Partly(g, n, UpTo(n), k), n, hub, rim, k)
  {
    hide Best, Visit;
    if k == 0 {
      PartlyStep(g, n, UpTo(n), 0);
      assert forall f | f in rim :: f in Adjacent(g, n, hub);
    } else {
      BeforeHub(g, n, hub, rim, k - 1);
      PartlyStep(g, n, UpTo(n), k - 1);
      if k - 1 in rim { OnlyLabel(Partly(g, n, UpTo(n), k - 1), n, {hub}, hub); }
    }
  }

  lemma SinglesBeyond(tag: seq<nat>, n: nat, hub: nat, rim: set<nat>, b: nat)
    requires Gathering(tag, n, hub, rim, hub) && hub !in rim && b != hub
    ensures Count(tag, rim, b) <= 1 && (Count(tag, rim, b) > 0 ==> b > hub)
  {
    assert Holders(tag, rim, b) <= {b};
    CardinalityOfSubset(Holders(tag, rim, b), {b});
    if b < hub { assert Holders(tag, rim, b) == {}; }
  }

  /** If anyone has come before it, the hub keeps its label: nobody else's is as common and as small. */
  lemma HubKeeps(tag: seq<nat>, n: nat, hub: nat, rim: set<nat>)
    requires Labels(tag, n) && Gathering(tag, n, hub, rim, hub) && hub !in rim && exists f :: f in rim && f < hub
    ensures Best(tag, rim, n) == hub
  {
    var f :| f in rim && f < hub;
    BestIsDominant(tag, n, rim);
    var b := Best(tag, rim, n);
    hide Best;
    assert f in Holders(tag, rim, hub);
    assert Count(tag, rim, hub) > 0;
    if b != hub { SinglesBeyond(tag, n, hub, rim, b); }
  }

  lemma AtHub(g: Edges, n: nat, hub: nat, rim: set<nat>)
    requires Star(g, n, hub, rim)
    ensures forall f | f in rim && f < hub :: Partly(g, n, UpTo(n), hub + 1)[f] == Partly(g, n, UpTo(n), hub + 1)[hub]
  {
    BeforeHub(g, n, hub, rim, hub);
    PartlyStep(g, n, UpTo(n), hub);
    hide Best, Visit;
    if exists f :: f in rim && f < hub { HubKeeps(Partly(g, n, UpTo(n), hub), n, hub, rim); }
  }

  lemma {:induction false} AfterHub(g: Edges, n: nat, hub: nat, rim: set<nat>, k: nat)
    requires Star(g, n, hub, rim) && hub < k <= n
    ensures forall f | f in rim && f < k :: Partly(g, n, UpTo(n), k)[f] == Partly(g, n, UpTo(n), k)[hub]
    decreases k
  {
    hide Best, Visit;
    if k == hub + 1 {
      AtHub(g, n, hub, rim);
    } else {
      AfterHub(g, n, hub, rim, k - 1);
      var tag := Partly(g, n, UpTo(n), k - 1);
      PartlyStep(g, n, UpTo(n), k - 1);
      if k - 1 in rim { OnlyLabel(tag, n, {hub}, tag[hub]); }
    }
  }

  lemma {:induction false} StaysOneLabel(g: Edges, n: nat, tag: seq<nat>, who: seq<nat>, hub: nat, rim: set<nat>, l: nat)
    requires Star(g, n, hub, rim) && Labels(tag, n) && Nodes(who, n) && OneLabel(tag, hub, rim, l)
    ensures OneLabel(Visit(g, n, tag, who), hub, rim, l)
  {
    hide Best;
    if who != [] {
      var k, before := |who| - 1, Visit(g, n, tag, who[..|who| - 1]);
      StaysOneLabel(g, n, tag, who[..k], hub, rim, l);
      if who[k] in rim { OnlyLabel(before, n, {hub}, l); }
      if who[k] == hub { OnlyLabel(before, n, rim, l); }
    }
  }

  /** FUNNELLING BINDS. Accounts that all vouch for one and are tied to nobody else are put in one community with it,
      however they are numbered. */
  lemma {:induction false} StarIsOneCommunity(g: Edges, n: nat, hub: nat, rim: set<nat>, rounds: nat)
    requires Star(g, n, hub, rim) && rounds >= 1
    ensures forall f | f in rim :: f < n && Sweeps(g, n, rounds)[f] == Sweeps(g, n, rounds)[hub]
  {
    hide Visit, Best;
    assert forall f | f in rim :: f in Adjacent(g, n, hub);
    if rounds == 1 {
      AfterHub(g, n, hub, rim, n);
      PartlyStep(g, n, UpTo(n), hub);
      assert Sweeps(g, n, 0) == UpTo(n);
    } else {
      StarIsOneCommunity(g, n, hub, rim, rounds - 1);
      var tag := Sweeps(g, n, rounds - 1);
      StaysOneLabel(g, n, tag, UpTo(n), hub, rim, tag[hub]);
    }
  }
}
