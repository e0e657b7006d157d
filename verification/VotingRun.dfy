/** Whole runs of the voting network. Random choices are nondeterministic: what is proved holds for
    every draw, loss and adversary. */
module VotingRun {
  import opened Bytes
  import opened Voting
  import opened Vectors

  // ---------------------------------------------------------------- weighted picks

  function Clamped(w: seq<real>): (v: seq<real>)
    ensures |v| == |w| && NonNegative(v) && forall i | 0 <= i < |w| :: v[i] == Max0(w[i])
  {
    seq(|w|, i requires 0 <= i < |w| => Max0(w[i]))
  }

  /** Running totals, negative weights counting as zero. */
  method CumWeights(w: seq<real>) returns (out: seq<real>)
    ensures Cumulated(Clamped(w), out)
  {
    var acc := 0.0;
    out := [];
    ghost var v := Clamped(w);
    for i := 0 to |w|
      invariant |out| == i && acc == Sum(v[..i])
      invariant forall j | 0 <= j < i :: out[j] == Sum(v[..j + 1])
    {
      assert v[..i + 1][..i] == v[..i];
      acc := acc + Max0(w[i]);
      out := out + [acc];
    }
  }

  ghost predicate Cumulated(w: seq<real>, cum: seq<real>) {
    |cum| == |w| && forall j | 0 <= j < |w| :: cum[j] == Sum(w[..j + 1])
  }

  lemma CumulatedStep(w: seq<real>, cum: seq<real>, i: nat)
    requires Cumulated(w, cum) && i < |w|
    ensures cum[i] == (if i == 0 then 0.0 else cum[i - 1]) + w[i]
  {
    assert w[..i + 1][..i] == w[..i];
    assert cum[i] == Sum(w[..i + 1]) == Sum(w[..i]) + w[i];
    if i > 0 {
      var before := i - 1;
      assert cum[before] == Sum(w[..before + 1]);
    } else {
      assert w[..i] == [];
    }
  }

  lemma CumulatedTotal(w: seq<real>, cum: seq<real>)
    requires Cumulated(w, cum) && w != []
    ensures cum[|w| - 1] == Sum(w)
  {
    var last := |w| - 1;
    assert cum[last] == Sum(w[..last + 1]);
    assert w[..last + 1] == w;
  }

  /** The draw `u` of the unit interval falls on the share of `pos`. */
  ghost predicate Falls(w: seq<real>, u: real, pos: nat) {
    pos < |w| && Sum(w[..pos]) <= Part(u, Sum(w)) < Sum(w[..pos + 1])
  }

  function Part(u: real, total: real): real { u * total }

  lemma PartWithin(u: real, total: real)
    requires 0.0 <= u < 1.0 && total > 0.0
    ensures 0.0 <= Part(u, total) < total
  {}

  /** A weighted pick by bisection, from a draw `u` of the unit interval; without weights, from a draw of any number. */
  method WeightedPick(cum: seq<real>, ghost w: seq<real>, u: real, any: nat) returns (pos: nat)
    requires Cumulated(w, cum) && NonNegative(w) && |cum| > 0 && 0.0 <= u < 1.0
    ensures pos < |cum|
    ensures if Sum(w) > 0.0 then Falls(w, u, pos) && w[pos] > 0.0 else pos == any % |cum|
  {
    var total := cum[|cum| - 1];
    CumulatedTotal(w, cum);
    if total <= 0.0 { return any % |cum|; }
    var target := Part(u, total);
    PartWithin(u, total);
    var lo, hi := 0, |cum|;
    while lo < hi
      invariant 0 <= lo <= hi <= |cum|
      invariant lo > 0 ==> cum[lo - 1] <= target
      invariant hi < |cum| ==> target < cum[hi]
    {
      var mid := (lo + hi) / 2;
      if target < cum[mid] { hi := mid; } else { lo := mid + 1; }
    }
    assert lo < |cum|;
    CumulatedStep(w, cum, lo);
    CumulatedBefore(w, cum, lo);
    pos := if lo < |cum| - 1 then lo else |cum| - 1;
  }

  lemma CumulatedBefore(w: seq<real>, cum: seq<real>, i: nat)
    requires Cumulated(w, cum) && i < |w|
    ensures Sum(w[..i]) == if i == 0 then 0.0 else cum[i - 1]
  {
    if i > 0 {
      var before := i - 1;
      assert cum[before] == Sum(w[..before + 1]);
    }
  }

  /** Every node is picked in proportion to its weight: its draws are an interval of the length of its share. */
  lemma PicksByShare(w: seq<real>, u: real, pos: nat)
    requires NonNegative(w) && Sum(w) > 0.0 && pos < |w|
    ensures var start := Sum(w[..pos]) / Sum(w); Falls(w, u, pos) <==> start <= u < start + w[pos] / Sum(w)
  {
    assert w[..pos + 1][..pos] == w[..pos];
    assert Sum(w[..pos + 1]) == Sum(w[..pos]) + w[pos];
    var before, own, total := Sum(w[..pos]), w[pos], Sum(w);
    hide Sum;
    InShares(before, own, total, u);
  }

  lemma InShares(before: real, own: real, total: real, u: real)
    requires total > 0.0
    ensures before <= Part(u, total) < before + own <==> before / total <= u < before / total + own / total
  {
    ShareOrder(before, total, u);
    ShareOrder(before + own, total, u);
  }

  // ---------------------------------------------------------------- the network

  datatype Network = Network(
    reputation: seq<real>, adversary: seq<bool>, params: Params, weighted: bool, adaptive: bool, loss: real,
    clusters: Option<seq<nat>>, cap: Option<nat>, groups: Option<seq<nat>>, partitionRounds: nat, networkQuorum: real
  )

  ghost predicate Valid(e: Network) {
    && |e.adversary| == |e.reputation|
    && (e.clusters.Some? ==> |e.clusters.value| == |e.reputation|)
    && (e.groups.Some? ==> |e.groups.value| == |e.reputation|)
  }

  function Weight(e: Network, i: nat): (w: real)
    requires i < |e.reputation|
    ensures w >= 0.0
  {
    if e.weighted then Max0(e.reputation[i]) else 1.0
  }

  predicate Honest(e: Network, i: nat) requires Valid(e) { i < |e.adversary| && !e.adversary[i] }

  predicate PartitionActive(e: Network, round: nat) { e.groups.Some? && round < e.partitionRounds }

  /** The nodes `node` can reach in this round. */
  function Pool(e: Network, round: nat, node: nat, upTo: nat): (ids: seq<nat>)
    requires Valid(e) && node < |e.reputation| && upTo <= |e.reputation|
    ensures forall p | 0 <= p < |ids| :: ids[p] < upTo
    ensures node < upTo ==> node in ids
  {
    if upTo == 0 then []
    else
      Pool(e, round, node, upTo - 1) +
      if !PartitionActive(e, round) || e.groups.value[upTo - 1] == e.groups.value[node] then [upTo - 1] else []
  }

  function PoolWeights(e: Network, ids: seq<nat>): (w: seq<real>)
    requires forall p | 0 <= p < |ids| :: ids[p] < |e.reputation|
    ensures |w| == |ids| && NonNegative(w) && forall p | 0 <= p < |ids| :: w[p] == Weight(e, ids[p])
  {
    seq(|ids|, p requires 0 <= p < |ids| => Weight(e, ids[p]))
  }

  function Reachable(e: Network, round: nat, node: nat): real
    requires Valid(e) && node < |e.reputation|
  {
    Sum(PoolWeights(e, Pool(e, round, node, |e.reputation|)))
  }

  function TotalWeight(e: Network): real {
    Sum(seq(|e.reputation|, i requires 0 <= i < |e.reputation| => Weight(e, i)))
  }

  /** The anti-partition guard. */
  predicate ReachesQuorum(e: Network, round: nat, node: nat)
    requires Valid(e) && node < |e.reputation|
  {
    e.networkQuorum <= 0.0 ||
    (TotalWeight(e) > 0.0 &&
     (if PartitionActive(e, round) then Reachable(e, round, node) else TotalWeight(e)) / TotalWeight(e) >= e.networkQuorum)
  }

  type State = seq<Ballot<Byte>>

  function Report(e: Network, s: State, adv: Byte, i: nat): Byte
    requires Valid(e) && |s| == |e.reputation| && i < |s|
  {
    if e.adversary[i] then adv else if s[i].decision.Some? then s[i].decision.value else s[i].pref
  }

  // ---------------------------------------------------------------- one sample

  /** The peers drawn, which of their responses arrived, whether the uncapped fallback was used, and how often peers
      were drawn under the cap. */
  datatype Sample = Sample(picks: seq<nat>, arrived: seq<bool>, exhausted: bool, attempts: nat)

  function InCluster(e: Network, picks: seq<nat>, c: nat): nat
    requires Valid(e) && e.clusters.Some? && forall j | 0 <= j < |picks| :: picks[j] < |e.reputation|
  {
    if picks == [] then 0
    else InCluster(e, picks[..|picks| - 1], c) + if e.clusters.value[picks[|picks| - 1]] == c then 1 else 0
  }

  predicate Capped(e: Network) { e.clusters.Some? && e.cap.Some? }

  ghost predicate Drawable(e: Network, round: nat, node: nat, pick: nat)
    requires Valid(e) && node < |e.reputation|
  {
    && pick < |e.reputation| && (Reachable(e, round, node) > 0.0 ==> Weight(e, pick) > 0.0)
    && (e.groups.Some? && round < e.partitionRounds ==> e.groups.value[pick] == e.groups.value[node])
  }

  /** Some peer that can be drawn is of a cluster that has its fill. */
  ghost predicate SomeFull(e: Network, round: nat, node: nat, picks: seq<nat>)
    requires Valid(e) && node < |e.reputation| && Capped(e) && forall j | 0 <= j < |picks| :: picks[j] < |e.reputation|
  {
    exists p: nat :: Drawable(e, round, node, p) && InCluster(e, picks, e.clusters.value[p]) >= e.cap.value
  }

  ghost predicate Legal(e: Network, round: nat, node: nat, x: Sample)
    requires Valid(e) && node < |e.reputation|
  {
    && |x.picks| == |x.arrived| == e.params.k
    && (forall j | 0 <= j < |x.picks| :: Drawable(e, round, node, x.picks[j]))
    && (Capped(e) && !x.exhausted ==> forall c :: InCluster(e, x.picks, c) <= e.cap.value)
    && (x.exhausted ==> Capped(e) && x.attempts == 40 * e.params.k && e.cap.value < e.params.k)
    && (if Capped(e) then x.attempts > e.params.k ==> SomeFull(e, round, node, x.picks) else x.attempts == e.params.k)
    && (e.loss <= 0.0 ==> forall j | 0 <= j < |x.arrived| :: x.arrived[j])
  }

  /** The votes a node hears: the reports of the picks whose response arrived. */
  function Heard(e: Network, s: State, adv: Byte, picks: seq<nat>, arrived: seq<bool>): seq<Byte>
    requires Valid(e) && |s| == |e.reputation| && |picks| == |arrived| && forall j | 0 <= j < |picks| :: picks[j] < |s|
  {
    if picks == [] then []
    else
      var n := |picks| - 1;
      Heard(e, s, adv, picks[..n], arrived[..n]) + if arrived[n] then [Report(e, s, adv, picks[n])] else []
  }

  method BasePick(e: Network, ids: seq<nat>, cum: seq<real>) returns (pick: nat)
    requires ids != [] && forall p | 0 <= p < |ids| :: ids[p] < |e.reputation|
    requires Cumulated(PoolWeights(e, ids), cum)
    ensures pick in ids && (Sum(PoolWeights(e, ids)) > 0.0 ==> Weight(e, pick) > 0.0)
  {
    var u: real :| 0.0 <= u < 1.0;
    var any: nat := *;
    var pos := WeightedPick(cum, PoolWeights(e, ids), u, any);
    pick := ids[pos];
  }

  /** Draws `k` peers: with the cap, full clusters are redrawn until the attempts run out, and the rest
      is filled without the cap; each response may be lost. */
  method DrawSample(e: Network, round: nat, node: nat) returns (x: Sample)
    requires Valid(e) && node < |e.reputation|
    ensures Legal(e, round, node, x)
  {
    var ids := Pool(e, round, node, |e.reputation|);
    var cum := CumWeights(PoolWeights(e, ids));
    assert Clamped(PoolWeights(e, ids)) == PoolWeights(e, ids);
    assert Reachable(e, round, node) == Sum(PoolWeights(e, ids));
    var k := e.params.k;
    var picks: seq<nat>, arrived: seq<bool>, exhausted := [], [], false;
    var perCluster: map<nat, nat> := map[];
    var attempts, limit := 0, k * 40;
    ghost var refused := 0;
    NothingDrawn(e, round, node);
    while |picks| < k
      invariant |picks| == |arrived| <= k && attempts <= limit && (exhausted ==> attempts == limit)
      invariant Drawing(e, round, node, Sample(picks, arrived, exhausted, attempts), refused, perCluster)
      decreases limit - attempts + k - |picks|
    {
      hide Reachable, Pool, PoolWeights, Sum, InCluster, Drawing, Tallied, Cumulated, Clamped, Legal, Drawable, Falls, Weight, SomeFull;
      var pick := BasePick(e, ids, cum);
      PickDrawable(e, round, node, pick);
      ghost var x := Sample(picks, arrived, exhausted, attempts);
      var within := attempts < limit;
      if within { attempts := attempts + 1; }
      if within && Capped(e) && Seen(e, perCluster, pick) >= e.cap.value {
        Refused(e, round, node, x, refused, perCluster, pick);
        refused := refused + 1;
      } else {
        var lost := *;
        var here := !(e.loss > 0.0 && lost);
        Kept(e, round, node, x, refused, perCluster, pick, here);
        exhausted := !within;
        if within && Capped(e) {
          perCluster := perCluster[e.clusters.value[pick] := Seen(e, perCluster, pick) + 1];
        }
        picks, arrived := picks + [pick], arrived + [here];
      }
    }
    x := Sample(picks, arrived, exhausted, attempts);
    AllDrawn(e, round, node, x, refused, perCluster);
  }

  /** A sample in the making, after `refused` picks of full clusters. */
  ghost predicate Drawing(e: Network, round: nat, node: nat, x: Sample, refused: nat, perCluster: map<nat, nat>)
    requires Valid(e) && node < |e.reputation|
  {
    && |x.picks| == |x.arrived| <= e.params.k && x.attempts <= 40 * e.params.k
    && (forall j | 0 <= j < |x.picks| :: x.picks[j] < |e.reputation| && Drawable(e, round, node, x.picks[j]))
    && (e.loss <= 0.0 ==> forall j | 0 <= j < |x.arrived| :: x.arrived[j])
    && (if x.exhausted then x.attempts == 40 * e.params.k && refused > 0 else x.attempts == |x.picks| + refused)
    && (refused > 0 ==> Capped(e) && e.cap.value < e.params.k && SomeFull(e, round, node, x.picks))
    && (Capped(e) && !x.exhausted ==> Tallied(e, x.picks, perCluster))
  }

  function Seen(e: Network, perCluster: map<nat, nat>, pick: nat): nat
    requires Valid(e) && Capped(e) && pick < |e.reputation|
  {
    var cl := e.clusters.value[pick];
    if cl in perCluster then perCluster[cl] else 0
  }

  lemma NothingDrawn(e: Network, round: nat, node: nat)
    requires Valid(e) && node < |e.reputation|
    ensures Drawing(e, round, node, Sample([], [], false, 0), 0, map[])
  {}

  lemma AllDrawn(e: Network, round: nat, node: nat, x: Sample, refused: nat, perCluster: map<nat, nat>)
    requires Valid(e) && node < |e.reputation| && Drawing(e, round, node, x, refused, perCluster) && |x.picks| == e.params.k
    ensures Legal(e, round, node, x)
  {
    if Capped(e) && !x.exhausted { TalliedCaps(e, x.picks, perCluster); }
    hide Drawable, SomeFull, InCluster, Tallied;
  }

  /** A pick is refused only if its cluster is full. */
  lemma Refused(e: Network, round: nat, node: nat, x: Sample, refused: nat, perCluster: map<nat, nat>, pick: nat)
    requires Valid(e) && node < |e.reputation| && Drawing(e, round, node, x, refused, perCluster) && Drawable(e, round, node, pick)
    requires Capped(e) && |x.picks| < e.params.k && x.attempts < 40 * e.params.k && Seen(e, perCluster, pick) >= e.cap.value
    ensures Drawing(e, round, node, x.(attempts := x.attempts + 1), refused + 1, perCluster)
  {
    assert InCluster(e, x.picks, e.clusters.value[pick]) == Seen(e, perCluster, pick);
    ClusterWithin(e, x.picks, e.clusters.value[pick]);
    hide Reachable, Pool, InCluster;
    assert SomeFull(e, round, node, x.picks);
    hide Tallied, Drawable, SomeFull;
  }

  /** A pick within the limit is of a cluster with room; past it any pick will do. */
  lemma Kept(e: Network, round: nat, node: nat, x: Sample, refused: nat, perCluster: map<nat, nat>, pick: nat, here: bool)
    requires Valid(e) && node < |e.reputation| && Drawing(e, round, node, x, refused, perCluster) && Drawable(e, round, node, pick)
    requires |x.picks| < e.params.k && (e.loss <= 0.0 ==> here)
    requires Capped(e) && x.attempts < 40 * e.params.k ==> Seen(e, perCluster, pick) < e.cap.value
    ensures var within := x.attempts < 40 * e.params.k;
      Drawing(
        e, round, node,
        Sample(x.picks + [pick], x.arrived + [here], !within, if within then x.attempts + 1 else x.attempts), refused,
        if within && Capped(e) then perCluster[e.clusters.value[pick] := Seen(e, perCluster, pick) + 1] else perCluster)
  {
    if refused > 0 { StaysFull(e, round, node, x.picks, pick); }
    assert pick < |e.reputation|;
    if Capped(e) && !x.exhausted { TalliedOneMore(e, x.picks, perCluster, pick); }
    hide Tallied, Drawable, SomeFull, InCluster;
  }

  /** While partitioned a node reaches its own side only. */
  lemma {:induction false} PoolIsOwnSide(e: Network, round: nat, node: nat, upTo: nat)
    requires Valid(e) && node < |e.reputation| && upTo <= |e.reputation|
    ensures forall p | p in Pool(e, round, node, upTo) ::
      p < upTo && (e.groups.Some? && round < e.partitionRounds ==> e.groups.value[p] == e.groups.value[node])
  {
    if upTo > 0 { PoolIsOwnSide(e, round, node, upTo - 1); }
  }

  lemma {:induction false} ClusterWithin(e: Network, picks: seq<nat>, c: nat)
    requires Valid(e) && e.clusters.Some? && forall j | 0 <= j < |picks| :: picks[j] < |e.reputation|
    ensures InCluster(e, picks, c) <= |picks|
  {
    if picks != [] { ClusterWithin(e, picks[..|picks| - 1], c); }
  }

  lemma PickDrawable(e: Network, round: nat, node: nat, pick: nat)
    requires Valid(e) && node < |e.reputation| && pick in Pool(e, round, node, |e.reputation|)
    requires Reachable(e, round, node) > 0.0 ==> pick < |e.reputation| && Weight(e, pick) > 0.0
    ensures Drawable(e, round, node, pick)
  {
    PoolIsOwnSide(e, round, node, |e.reputation|);
  }

  /** A full cluster stays full. */
  lemma StaysFull(e: Network, round: nat, node: nat, picks: seq<nat>, pick: nat)
    requires Valid(e) && node < |e.reputation| && Capped(e) && forall j | 0 <= j < |picks| :: picks[j] < |e.reputation|
    requires pick < |e.reputation| && SomeFull(e, round, node, picks)
    ensures SomeFull(e, round, node, picks + [pick])
  {
    assert (picks + [pick])[..|picks|] == picks;
    var p: nat :| Drawable(e, round, node, p) && InCluster(e, picks, e.clusters.value[p]) >= e.cap.value;
    hide Drawable;
    assert InCluster(e, picks + [pick], e.clusters.value[p]) >= e.cap.value;
  }

  /** `perCluster` counts the picks of each cluster, none over the cap. */
  ghost predicate Tallied(e: Network, picks: seq<nat>, perCluster: map<nat, nat>)
    requires Valid(e) && Capped(e)
  {
    && (forall j | 0 <= j < |picks| :: picks[j] < |e.reputation|)
    && (forall c :: InCluster(e, picks, c) == if c in perCluster then perCluster[c] else 0)
    && (forall c | c in perCluster :: perCluster[c] <= e.cap.value)
  }

  lemma TalliedCaps(e: Network, picks: seq<nat>, perCluster: map<nat, nat>)
    requires Valid(e) && Capped(e) && Tallied(e, picks, perCluster)
    ensures (forall j | 0 <= j < |picks| :: picks[j] < |e.reputation|) && forall c :: InCluster(e, picks, c) <= e.cap.value
  {}


  lemma TalliedOneMore(e: Network, picks: seq<nat>, perCluster: map<nat, nat>, pick: nat)
    requires Valid(e) && Capped(e) && pick < |e.reputation| && Tallied(e, picks, perCluster)
    ensures var cl := e.clusters.value[pick];
            var seen := if cl in perCluster then perCluster[cl] else 0;
            seen < e.cap.value ==> Tallied(e, picks + [pick], perCluster[cl := seen + 1])
  {
    assert (picks + [pick])[..|picks|] == picks;
  }

  // ---------------------------------------------------------------- rounds

  /** The adaptive adversary backs the minority among the honest; the fixed one always reports 1. */
  function HonestReporting(e: Network, s: State, adv: Byte, one: bool, upTo: nat): nat
    requires Valid(e) && |s| == |e.reputation| && upTo <= |s|
  {
    if upTo == 0 then 0
    else
      HonestReporting(e, s, adv, one, upTo - 1) +
      if Honest(e, upTo - 1) && (Report(e, s, adv, upTo - 1) == 1) == one then 1 else 0
  }

  function AdversaryColour(e: Network, s: State, adv: Byte): Byte
    requires Valid(e) && |s| == |e.reputation|
  {
    if !e.adaptive then adv
    else if HonestReporting(e, s, adv, true, |s|) <= HonestReporting(e, s, adv, false, |s|) then 1 else 0
  }

  predicate Waiting(e: Network, s: State, i: nat)
    requires Valid(e) && |s| == |e.reputation|
  {
    i < |s| && Honest(e, i) && s[i].decision.None?
  }

  predicate AllDecided(e: Network, s: State)
    requires Valid(e) && |s| == |e.reputation|
  {
    forall i | 0 <= i < |s| :: !Waiting(e, s, i)
  }

  /** One node observes the sample it drew. */
  function Observed(e: Network, round: nat, s: State, adv: Byte, node: nat, x: Sample): (s': State)
    requires Valid(e) && |s| == |e.reputation| && node < |s|
    requires ShapedSample(e, x)
    ensures |s'| == |s|
  {
    var votes := Heard(e, s, adv, x.picks, x.arrived);
    s[node := Advance(s[node], Round(Some(BinaryLead(votes)), e.params, ReachesQuorum(e, round, node)))]
  }

  /** The samples of one round: one for every honest node still undecided when the round begins. */
  ghost predicate LegalRow(e: Network, round: nat, s: State, row: seq<Option<Sample>>)
    requires Valid(e) && |s| == |e.reputation|
  {
    && |row| == |s|
    && (forall i | 0 <= i < |s| :: row[i].Some? == Waiting(e, s, i))
    && (forall i | 0 <= i < |s| && row[i].Some? :: Legal(e, round, i, row[i].value))
  }

  predicate ShapedRow(e: Network, row: seq<Option<Sample>>) {
    && |row| <= |e.reputation|
    && (forall i | 0 <= i < |row| && row[i].Some? :: ShapedSample(e, row[i].value))
  }

  predicate ShapedSample(e: Network, x: Sample) {
    |x.picks| == |x.arrived| && forall j | 0 <= j < |x.picks| :: x.picks[j] < |e.reputation|
  }

  /** The state after nodes `0 .. |row| - 1` have taken their turn, each seeing what the earlier ones did. */
  function Turns(e: Network, round: nat, s: State, adv: Byte, row: seq<Option<Sample>>): (s': State)
    requires Valid(e) && ShapedRow(e, row) && |s| == |e.reputation|
    ensures |s'| == |s|
  {
    if row == [] then s
    else
      var i := |row| - 1;
      var t := Turns(e, round, s, adv, row[..i]);
      if row[i].None? then t else Observed(e, round, t, adv, i, row[i].value)
  }

  function Initial(e: Network): (s: State)
    ensures |s| == |e.reputation| && forall i | 0 <= i < |s| :: s[i] == Ballot(0, 0, None)
  {
    seq(|e.reputation|, _ => Ballot(0, 0, None))
  }

  /** A run as a trace: states and adversary colours before each round, and the samples drawn in it. */
  datatype Run = Run(states: seq<State>, colours: seq<Byte>, rows: seq<seq<Option<Sample>>>)

  ghost predicate Plays(e: Network, r: Run) requires Valid(e) {
    && |r.states| == |r.colours| == |r.rows| + 1
    && r.states[0] == Initial(e) && r.colours[0] == 1
    && |r.rows| <= e.params.maxRounds
    && (forall k | 0 <= k < |r.states| :: |r.states[k]| == |e.reputation|)
    && (forall k | 0 <= k < |r.rows| :: PlaysRound(e, r, k))
  }

  ghost predicate PlaysRound(e: Network, r: Run, k: nat)
    requires Valid(e) && k < |r.rows| && |r.states| == |r.colours| == |r.rows| + 1
    requires forall j | 0 <= j < |r.states| :: |r.states[j]| == |e.reputation|
  {
    var s, adv := r.states[k], AdversaryColour(e, r.states[k], r.colours[k]);
    && !AllDecided(e, s) && LegalRow(e, k, s, r.rows[k]) && ShapedRow(e, r.rows[k])
    && r.colours[k + 1] == adv && r.states[k + 1] == Turns(e, k, s, adv, r.rows[k])
  }

  function Final(r: Run): State requires r.states != [] { r.states[|r.states| - 1] }

  /** The run ends when every honest node has decided or the rounds are used up. */
  ghost predicate Complete(e: Network, r: Run) requires Valid(e) {
    Plays(e, r) && (|r.rows| == e.params.maxRounds || AllDecided(e, Final(r)))
  }

  // ---------------------------------------------------------------- outcomes

  datatype Outcome = Outcome(decided0: nat, decided1: nat, undecided: nat, safe: bool, capture: bool, fork: bool)

  function Tally(e: Network, s: State, want: Option<bool>, upTo: nat): nat
    requires Valid(e) && upTo <= |s| == |e.reputation|
  {
    if upTo == 0 then 0
    else
      Tally(e, s, want, upTo - 1) +
      if Honest(e, upTo - 1) && Verdict(s[upTo - 1]) == want then 1 else 0
  }

  /** Undecided, decided 0, or decided something else. */
  function Verdict(b: Ballot<Byte>): Option<bool> {
    if b.decision.None? then None else Some(b.decision.value == 0)
  }

  method RunOnce(e: Network) returns (out: Outcome, ghost r: Run)
    requires Valid(e)
    ensures Complete(e, r)
    ensures out.decided0 == Tally(e, Final(r), Some(true), |e.reputation|)
    ensures out.decided1 == Tally(e, Final(r), Some(false), |e.reputation|)
    ensures out.undecided == Tally(e, Final(r), None, |e.reputation|)
    ensures out.safe == (out.decided1 == 0 && out.undecided == 0)
    ensures out.capture == (out.decided1 > 0) && out.fork == (out.decided0 > 0 && out.decided1 > 0)
  {
    var nodes := Initial(e);
    var adv: Byte := 1;
    r := Run([nodes], [adv], []);
    for round := 0 to e.params.maxRounds
      invariant |nodes| == |e.reputation| && |r.rows| == round
      invariant Plays(e, r) && Final(r) == nodes && r.colours[|r.colours| - 1] == adv
    {
      if AllDecided(e, nodes) { break; }
      adv := AdversaryColour(e, nodes, adv);
      ghost var row;
      ghost var before := nodes;
      nodes, row := PlayRound(e, round, nodes, adv);
      r := OneMoreRound(e, r, adv, nodes, row);
    }
    var d0, d1, u := Count(e, nodes);
    out := Outcome(d0, d1, u, d1 == 0 && u == 0, d1 > 0, d0 > 0 && d1 > 0);
  }

  /** The round after its first `|row|` nodes have had their turn. */
  ghost predicate Underway(e: Network, round: nat, s: State, adv: Byte, row: seq<Option<Sample>>, nodes: State)
    requires Valid(e) && |s| == |e.reputation|
  {
    && |row| <= |s| == |nodes| && ShapedRow(e, row) && nodes == Turns(e, round, s, adv, row)
    && (forall i | 0 <= i < |row| :: row[i].Some? == Waiting(e, s, i))
    && (forall i | 0 <= i < |row| && row[i].Some? :: Legal(e, round, i, row[i].value))
    && (forall i | |row| <= i < |s| :: nodes[i] == s[i])
  }

  /** A node takes its turn: it is still as the round found it. */
  lemma TurnTaken(e: Network, round: nat, s: State, adv: Byte, row: seq<Option<Sample>>, nodes: State, turn: Option<Sample>)
    requires Valid(e) && |s| == |e.reputation| && Underway(e, round, s, adv, row, nodes) && |row| < |s|
    requires turn.Some? == Waiting(e, nodes, |row|) && (turn.Some? ==> Legal(e, round, |row|, turn.value))
    ensures turn.Some? ==> ShapedSample(e, turn.value)
    ensures Underway(e, round, s, adv, row + [turn],
                     if turn.Some? then Observed(e, round, nodes, adv, |row|, turn.value) else nodes)
  {
    var i, longer := |row|, row + [turn];
    assert longer[..i] == row;
    if turn.Some? { assert forall j | 0 <= j < |turn.value.picks| :: Drawable(e, round, i, turn.value.picks[j]); }
    hide Heard, BinaryLead, Pool, Reachable, ReachesQuorum, Legal, Advance;
  }

  method PlayRound(e: Network, round: nat, s: State, adv: Byte) returns (nodes: State, ghost row: seq<Option<Sample>>)
    requires Valid(e) && |s| == |e.reputation|
    ensures LegalRow(e, round, s, row) && ShapedRow(e, row) && nodes == Turns(e, round, s, adv, row)
  {
    nodes := s;
    row := [];
    for node := 0 to |s|
      invariant |row| == node && Underway(e, round, s, adv, row, nodes)
    {
      hide Turns, Legal, Heard, BinaryLead, Pool, ReachesQuorum;
      ghost var turn: Option<Sample> := None;
      ghost var before := nodes;
      if Waiting(e, nodes, node) {
        var x := DrawSample(e, round, node);
        turn := Some(x);
        TurnTaken(e, round, s, adv, row, before, turn);
        nodes := Observed(e, round, nodes, adv, node, x);
      } else {
        TurnTaken(e, round, s, adv, row, before, turn);
      }
      row := row + [turn];
    }
  }

  ghost method OneMoreRound(e: Network, r: Run, adv: Byte, nodes: State, row: seq<Option<Sample>>) returns (r': Run)
    requires Valid(e) && Plays(e, r) && |r.rows| < e.params.maxRounds && |nodes| == |e.reputation|
    requires adv == AdversaryColour(e, Final(r), r.colours[|r.colours| - 1]) && !AllDecided(e, Final(r))
    requires LegalRow(e, |r.rows|, Final(r), row) && ShapedRow(e, row) && nodes == Turns(e, |r.rows|, Final(r), adv, row)
    ensures Plays(e, r') && |r'.rows| == |r.rows| + 1 && Final(r') == nodes && r'.colours[|r'.colours| - 1] == adv
  {
    r' := Run(r.states + [nodes], r.colours + [adv], r.rows + [row]);
    forall k | 0 <= k < |r'.rows| ensures PlaysRound(e, r', k) {
      if k < |r.rows| { assert PlaysRound(e, r, k); }
    }
  }

  method Count(e: Network, s: State) returns (d0: nat, d1: nat, u: nat)
    requires Valid(e) && |s| == |e.reputation|
    ensures d0 == Tally(e, s, Some(true), |s|) && d1 == Tally(e, s, Some(false), |s|) && u == Tally(e, s, None, |s|)
  {
    d0, d1, u := 0, 0, 0;
    for i := 0 to |s|
      invariant d0 == Tally(e, s, Some(true), i) && d1 == Tally(e, s, Some(false), i) && u == Tally(e, s, None, i)
    {
      if Honest(e, i) {
        match s[i].decision
        case None => u := u + 1;
        case Some(c) => if c == 0 { d0 := d0 + 1; } else { d1 := d1 + 1; }
      }
    }
  }

  // ---------------------------------------------------------------- safety under the independence cap

  function AdversaryClusters(e: Network): set<nat>
    requires Valid(e) && e.clusters.Some?
  {
    set i: nat | i < |e.adversary| && e.adversary[i] :: e.clusters.value[i]
  }

  function AdversaryPicks(e: Network, picks: seq<nat>): nat
    requires Valid(e) && forall j | 0 <= j < |picks| :: picks[j] < |e.reputation|
  {
    if picks == [] then 0
    else AdversaryPicks(e, picks[..|picks| - 1]) + if e.adversary[picks[|picks| - 1]] then 1 else 0
  }

  function InClusters(e: Network, picks: seq<nat>, cs: set<nat>): nat
    requires Valid(e) && e.clusters.Some? && forall j | 0 <= j < |picks| :: picks[j] < |e.reputation|
  {
    if picks == [] then 0
    else InClusters(e, picks[..|picks| - 1], cs) + if e.clusters.value[picks[|picks| - 1]] in cs then 1 else 0
  }

  lemma {:induction false} PicksSplit(e: Network, picks: seq<nat>, cs: set<nat>, c: nat)
    requires Valid(e) && e.clusters.Some? && forall j | 0 <= j < |picks| :: picks[j] < |e.reputation|
    requires c in cs
    ensures InClusters(e, picks, cs) == InClusters(e, picks, cs - {c}) + InCluster(e, picks, c)
  {
    if picks != [] { PicksSplit(e, picks[..|picks| - 1], cs, c); }
  }

  lemma {:induction false} NoClusters(e: Network, picks: seq<nat>)
    requires Valid(e) && e.clusters.Some? && forall j | 0 <= j < |picks| :: picks[j] < |e.reputation|
    ensures InClusters(e, picks, {}) == 0
  {
    if picks != [] { NoClusters(e, picks[..|picks| - 1]); }
  }

  lemma {:induction false} PicksCapped(e: Network, picks: seq<nat>, cs: set<nat>, cap: nat)
    requires Valid(e) && e.clusters.Some? && forall j | 0 <= j < |picks| :: picks[j] < |e.reputation|
    requires forall c :: InCluster(e, picks, c) <= cap
    ensures InClusters(e, picks, cs) <= |cs| * cap
    decreases |cs|
  {
    if cs == {} {
      NoClusters(e, picks);
    } else {
      var c :| c in cs;
      PicksSplit(e, picks, cs, c);
      PicksCapped(e, picks, cs - {c}, cap);
      assert |cs| * cap == |cs - {c}| * cap + cap;
    }
  }

  lemma {:induction false} AdversariesInClusters(e: Network, picks: seq<nat>)
    requires Valid(e) && e.clusters.Some? && forall j | 0 <= j < |picks| :: picks[j] < |e.reputation|
    ensures AdversaryPicks(e, picks) <= InClusters(e, picks, AdversaryClusters(e))
  {
    if picks != [] { AdversariesInClusters(e, picks[..|picks| - 1]); }
  }

  /** No honest node prefers or has decided anything but 0. */
  ghost predicate NeverOne(e: Network, s: State)
    requires Valid(e) && |s| == |e.reputation|
  {
    forall i | 0 <= i < |s| && Honest(e, i) :: s[i].pref == 0 && (s[i].decision.Some? ==> s[i].decision.value == 0)
  }

  lemma OnesAppend(votes: seq<Byte>, v: Byte)
    ensures Ones(votes + [v]) == Ones(votes) + if v == 1 then 1 else 0
  {
    assert (votes + [v])[..|votes|] == votes;
  }

  /** Only adversaries can be heard saying 1. */
  lemma {:induction false} OnesAreAdversaries(e: Network, s: State, adv: Byte, picks: seq<nat>, arrived: seq<bool>)
    requires Valid(e) && |s| == |e.reputation| && |picks| == |arrived| && forall j | 0 <= j < |picks| :: picks[j] < |s|
    requires NeverOne(e, s)
    ensures Ones(Heard(e, s, adv, picks, arrived)) <= AdversaryPicks(e, picks)
  {
    if picks != [] {
      var n := |picks| - 1;
      OnesAreAdversaries(e, s, adv, picks[..n], arrived[..n]);
      var head := Heard(e, s, adv, picks[..n], arrived[..n]);
      assert Heard(e, s, adv, picks, arrived) == if arrived[n] then head + [Report(e, s, adv, picks[n])] else head;
      OnesAppend(head, Report(e, s, adv, picks[n]));
    }
  }

  /** The adversaries' clusters together fill less than `alpha` places of a capped sample. */
  ghost predicate CapHolds(e: Network) requires Valid(e) {
    Capped(e) && |AdversaryClusters(e)| * e.cap.value < e.params.alpha
  }

  lemma ObservedNeverOne(e: Network, round: nat, s: State, adv: Byte, node: nat, x: Sample)
    requires Valid(e) && |s| == |e.reputation| && node < |s| && CapHolds(e) && NeverOne(e, s)
    requires Legal(e, round, node, x) && !x.exhausted
    ensures NeverOne(e, Observed(e, round, s, adv, node, x))
  {
    OnesAreAdversaries(e, s, adv, x.picks, x.arrived);
    AdversariesInClusters(e, x.picks);
    PicksCapped(e, x.picks, AdversaryClusters(e), e.cap.value);
  }

  ghost predicate NoFallback(row: seq<Option<Sample>>) { forall i | 0 <= i < |row| && row[i].Some? :: !row[i].value.exhausted }

  lemma {:induction false} TurnsNeverOne(e: Network, round: nat, s: State, adv: Byte, row: seq<Option<Sample>>)
    requires Valid(e) && ShapedRow(e, row) && |s| == |e.reputation| && CapHolds(e) && NeverOne(e, s) && NoFallback(row)
    requires forall i | 0 <= i < |row| && row[i].Some? :: Legal(e, round, i, row[i].value)
    ensures NeverOne(e, Turns(e, round, s, adv, row))
  {
    if row != [] {
      var i := |row| - 1;
      TurnsNeverOne(e, round, s, adv, row[..i]);
      if row[i].Some? { ObservedNeverOne(e, round, Turns(e, round, s, adv, row[..i]), adv, i, row[i].value); }
    }
  }

  lemma {:induction false} StatesNeverOne(e: Network, r: Run, k: nat)
    requires Valid(e) && Plays(e, r) && CapHolds(e) && k < |r.states|
    requires forall j | 0 <= j < |r.rows| :: NoFallback(r.rows[j])
    ensures NeverOne(e, r.states[k])
  {
    if k > 0 {
      StatesNeverOne(e, r, k - 1);
      assert PlaysRound(e, r, k - 1);
      TurnsNeverOne(e, k - 1, r.states[k - 1], r.colours[k - 1 + 1], r.rows[k - 1]);
    }
  }

  lemma {:induction false} NoneTallied(e: Network, s: State, want: Option<bool>, upTo: nat)
    requires Valid(e) && upTo <= |s| == |e.reputation|
    requires forall i | 0 <= i < upTo && Honest(e, i) :: Verdict(s[i]) != want
    ensures Tally(e, s, want, upTo) == 0
  {
    if upTo > 0 { NoneTallied(e, s, want, upTo - 1); }
  }

  /** With the adversaries' clusters capped below alpha, and no sample topped up past the cap, no honest
      node ever prefers or decides 1, in any round of any run, whatever the weights, losses, partition
      or strategy: the network is neither captured nor forked. */
  lemma CapSafety(e: Network, r: Run)
    requires Valid(e) && Plays(e, r) && CapHolds(e)
    requires forall j | 0 <= j < |r.rows| :: NoFallback(r.rows[j])
    ensures forall k | 0 <= k < |r.states| :: NeverOne(e, r.states[k])
    ensures Tally(e, Final(r), Some(false), |e.reputation|) == 0
  {
    forall k | 0 <= k < |r.states| ensures NeverOne(e, r.states[k]) { StatesNeverOne(e, r, k); }
    assert NeverOne(e, Final(r));
    NoneTallied(e, Final(r), Some(false), |e.reputation|);
  }

  // ---------------------------------------------------------------- adversaries without reputation

  /** Adversaries have no reputation, and nothing else stands in the way of a round. */
  ghost predicate Powerless(e: Network) requires Valid(e) {
    && e.weighted && TotalWeight(e) > 0.0
    && (forall i | 0 <= i < |e.adversary| && e.adversary[i] :: e.reputation[i] <= 0.0)
    && e.loss <= 0.0 && e.groups.None? && e.networkQuorum <= 1.0
    && 1 <= e.params.alpha <= e.params.k && 1 <= e.params.beta <= e.params.maxRounds
  }

  lemma {:induction false} PoolIsEveryone(e: Network, round: nat, node: nat, upTo: nat)
    requires Valid(e) && node < |e.reputation| && upTo <= |e.reputation| && !PartitionActive(e, round)
    ensures |Pool(e, round, node, upTo)| == upTo && forall p | 0 <= p < upTo :: Pool(e, round, node, upTo)[p] == p
  {
    if upTo > 0 { PoolIsEveryone(e, round, node, upTo - 1); }
  }

  lemma ReachesAll(e: Network, round: nat, node: nat)
    requires Valid(e) && node < |e.reputation| && !PartitionActive(e, round)
    ensures Reachable(e, round, node) == TotalWeight(e)
  {
    PoolIsEveryone(e, round, node, |e.reputation|);
    assert PoolWeights(e, Pool(e, round, node, |e.reputation|)) ==
           seq(|e.reputation|, i requires 0 <= i < |e.reputation| => Weight(e, i));
  }

  /** After `k` rounds every honest node up to `i` is one confirmation ahead of the rest. */
  ghost predicate InStep(e: Network, s: State, k: nat, i: nat)
    requires Valid(e) && |s| == |e.reputation|
  {
    forall j | 0 <= j < |s| && Honest(e, j) :: s[j] == Confirmations(e, if j < i then k + 1 else k)
  }

  function Confirmations(e: Network, k: nat): Ballot<Byte> { Ballot(0, k, if k >= e.params.beta then Some(0) else None) }

  lemma {:induction false} AllHeardZero(e: Network, s: State, adv: Byte, picks: seq<nat>, arrived: seq<bool>)
    requires Valid(e) && |s| == |e.reputation| && |picks| == |arrived| && forall j | 0 <= j < |picks| :: picks[j] < |s|
    requires NeverOne(e, s) && (forall j | 0 <= j < |picks| :: Honest(e, picks[j]) && arrived[j])
    ensures |Heard(e, s, adv, picks, arrived)| == |picks| && Ones(Heard(e, s, adv, picks, arrived)) == 0
  {
    if picks != [] {
      var n := |picks| - 1;
      AllHeardZero(e, s, adv, picks[..n], arrived[..n]);
      var head := Heard(e, s, adv, picks[..n], arrived[..n]);
      assert Heard(e, s, adv, picks, arrived) == head + [Report(e, s, adv, picks[n])];
      OnesAppend(head, Report(e, s, adv, picks[n]));
    }
  }

  lemma QuorumReached(e: Network, round: nat, node: nat)
    requires Valid(e) && Powerless(e) && node < |e.reputation|
    ensures ReachesQuorum(e, round, node)
  {
    assert TotalWeight(e) / TotalWeight(e) == 1.0;
  }

  /** A node that hears only honest peers, all of them, sees k votes for 0 and none for 1. */
  lemma OnlyZeroHeard(e: Network, s: State, adv: Byte, k: nat, i: nat, x: Sample)
    requires Valid(e) && |s| == |e.reputation| && i < |s| && Powerless(e) && NeverOne(e, s) && Legal(e, k, i, x)
    ensures BinaryLead(Heard(e, s, adv, x.picks, x.arrived)) == (0, e.params.k)
  {
    ReachesAll(e, k, i);
    AllHeardZero(e, s, adv, x.picks, x.arrived);
  }

  lemma InStepNeverOne(e: Network, s: State, k: nat, i: nat)
    requires Valid(e) && |s| == |e.reputation| && InStep(e, s, k, i)
    ensures NeverOne(e, s)
  {}

  lemma TurnInStep(e: Network, s: State, adv: Byte, k: nat, i: nat, x: Sample)
    requires Valid(e) && |s| == |e.reputation| && i < |s| && Powerless(e) && k < e.params.beta
    requires InStep(e, s, k, i) && Honest(e, i) && Legal(e, k, i, x)
    ensures InStep(e, Observed(e, k, s, adv, i, x), k, i + 1)
  {
    InStepNeverOne(e, s, k, i);
    OnlyZeroHeard(e, s, adv, k, i, x);
    QuorumReached(e, k, i);
    hide Heard, BinaryLead, ReachesQuorum, NeverOne, Legal;
    assert Observed(e, k, s, adv, i, x)[i] == Confirmations(e, k + 1);
  }

  lemma {:induction false} TurnsInStep(e: Network, s: State, adv: Byte, k: nat, row: seq<Option<Sample>>)
    requires Valid(e) && ShapedRow(e, row) && |s| == |e.reputation| && Powerless(e) && k < e.params.beta && InStep(e, s, k, 0)
    requires forall i | 0 <= i < |row| :: row[i].Some? == Honest(e, i)
    requires forall i | 0 <= i < |row| && row[i].Some? :: Legal(e, k, i, row[i].value)
    ensures InStep(e, Turns(e, k, s, adv, row), k, |row|)
  {
    if row != [] {
      var i := |row| - 1;
      TurnsInStep(e, s, adv, k, row[..i]);
      if row[i].Some? { TurnInStep(e, Turns(e, k, s, adv, row[..i]), adv, k, i, row[i].value); }
    }
  }

  lemma {:induction false} RoundsInStep(e: Network, r: Run, k: nat)
    requires Valid(e) && Plays(e, r) && Powerless(e) && k < |r.states| && k <= e.params.beta
    ensures InStep(e, r.states[k], k, 0)
  {
    if k > 0 {
      RoundsInStep(e, r, k - 1);
      assert PlaysRound(e, r, k - 1);
      TurnsInStep(e, r.states[k - 1], r.colours[k - 1 + 1], k - 1, r.rows[k - 1]);
    }
  }

  lemma SomeoneIsHonest(e: Network) returns (i: nat)
    requires Valid(e) && Powerless(e)
    ensures i < |e.reputation| && Honest(e, i)
  {
    var w := seq(|e.reputation|, j requires 0 <= j < |e.reputation| => Weight(e, j));
    if forall j | 0 <= j < |w| :: w[j] == 0.0 {
      SumInZero(Others({}, |w|), w);
      SumSplits({}, w, |w|);
      SumInZero({}, w);
      assert false;
    }
    var j :| 0 <= j < |w| && w[j] != 0.0;
    i := j;
  }

  lemma OneMoreHonest(e: Network, k: nat)
    requires Valid(e)
    ensures |set i: nat | i < k + 1 && Honest(e, i)| == |set i: nat | i < k && Honest(e, i)| + if Honest(e, k) then 1 else 0
    ensures |set i: nat | i < 0 && Honest(e, i)| == 0
  {
    var before, all := set i: nat | i < k && Honest(e, i), set i: nat | i < k + 1 && Honest(e, i);
    assert all == before + if Honest(e, k) then {k} else {};
    assert (set i: nat | i < 0 && Honest(e, i)) == {};
  }

  lemma {:induction false} AllTallied(e: Network, s: State, want: Option<bool>, upTo: nat)
    requires Valid(e) && upTo <= |s| == |e.reputation|
    requires forall i | 0 <= i < upTo && Honest(e, i) :: Verdict(s[i]) == want
    ensures Tally(e, s, want, upTo) == |set i: nat | i < upTo && Honest(e, i)|
  {
    if upTo == 0 {
      OneMoreHonest(e, 0);
    } else {
      AllTallied(e, s, want, upTo - 1);
      OneMoreHonest(e, upTo - 1);
    }
  }

  /** If no adversary has reputation, every complete run ends after exactly beta rounds with every
      honest node deciding 0. */
  lemma PowerlessAdversariesLose(e: Network, r: Run)
    requires Valid(e) && Complete(e, r) && Powerless(e)
    ensures |r.rows| == e.params.beta
    ensures Tally(e, Final(r), Some(true), |e.reputation|) == |set i: nat | i < |e.reputation| && Honest(e, i)|
    ensures Tally(e, Final(r), Some(false), |e.reputation|) == 0 == Tally(e, Final(r), None, |e.reputation|)
  {
    var i := SomeoneIsHonest(e);
    var n, beta := |r.rows|, e.params.beta;
    forall k | 0 <= k < n ensures !AllDecided(e, r.states[k]) { assert PlaysRound(e, r, k); }
    if n < beta {
      RoundsInStep(e, r, n);
      assert Waiting(e, Final(r), i);
    } else {
      RoundsInStep(e, r, beta);
    }
    assert n == beta;
    assert forall j | 0 <= j < |e.reputation| && Honest(e, j) :: Verdict(Final(r)[j]) == Some(true);
    AllTallied(e, Final(r), Some(true), |e.reputation|);
    NoneTallied(e, Final(r), Some(false), |e.reputation|);
    NoneTallied(e, Final(r), None, |e.reputation|);
  }

  // ---------------------------------------------------------------- partitions

  function PoolMass(e: Network, round: nat, node: nat, k: nat): real
    requires Valid(e) && node < |e.reputation| && k <= |e.reputation|
  {
    Sum(PoolWeights(e, Pool(e, round, node, k)))
  }

  function AllWeights(e: Network): (w: Vec)
    ensures |w| == |e.reputation| && forall i | 0 <= i < |w| :: w[i] == Weight(e, i)
  {
    seq(|e.reputation|, i requires 0 <= i < |e.reputation| => Weight(e, i))
  }

  function AllMass(e: Network, k: nat): real requires k <= |e.reputation| { Sum(AllWeights(e)[..k]) }

  lemma AllGrows(e: Network, k: nat)
    requires k < |e.reputation|
    ensures AllMass(e, k + 1) == AllMass(e, k) + Weight(e, k) && AllMass(e, |e.reputation|) == TotalWeight(e)
  {
    assert AllWeights(e)[..k + 1][..k] == AllWeights(e)[..k];
    assert AllWeights(e)[..|e.reputation|] == AllWeights(e);
  }

  lemma {:induction false} GroupsShare(e: Network, round: nat, i: nat, j: nat, upTo: nat)
    requires Valid(e) && i < |e.reputation| && j < |e.reputation| && upTo <= |e.reputation|
    requires PartitionActive(e, round) && e.groups.value[i] != e.groups.value[j]
    ensures PoolMass(e, round, i, upTo) + PoolMass(e, round, j, upTo) <= AllMass(e, upTo)
  {
    if upTo == 0 { return; }
    hide PoolMass, AllMass, Weight;
    GroupsShare(e, round, i, j, upTo - 1);
    PoolMassGrows(e, round, i, upTo - 1);
    PoolMassGrows(e, round, j, upTo - 1);
    AllGrows(e, upTo - 1);
  }

  lemma PoolMassGrows(e: Network, round: nat, i: nat, k: nat)
    requires Valid(e) && i < |e.reputation| && k < |e.reputation|
    ensures PoolMass(e, round, i, k + 1) == PoolMass(e, round, i, k) +
      if !PartitionActive(e, round) || e.groups.value[k] == e.groups.value[i] then Weight(e, k) else 0.0
  {
    PoolGrows(e, round, i, k);
    hide Pool, PoolWeights, Sum, Weight;
  }

  lemma PoolGrows(e: Network, round: nat, i: nat, k: nat)
    requires Valid(e) && i < |e.reputation| && k < |e.reputation|
    ensures Sum(PoolWeights(e, Pool(e, round, i, k + 1))) == Sum(PoolWeights(e, Pool(e, round, i, k))) +
      if !PartitionActive(e, round) || e.groups.value[k] == e.groups.value[i] then Weight(e, k) else 0.0
  {
    var before, after := Pool(e, round, i, k), Pool(e, round, i, k + 1);
    if !PartitionActive(e, round) || e.groups.value[k] == e.groups.value[i] {
      assert after == before + [k];
      assert PoolWeights(e, after)[..|before|] == PoolWeights(e, before);
    } else {
      assert after == before;
    }
  }

  /** Two nodes that reach a quorum above one half in one partitioned round are on one side. */
  lemma OneSideFinalises(e: Network, round: nat, i: nat, j: nat)
    requires Valid(e) && i < |e.reputation| && j < |e.reputation| && e.networkQuorum > 0.5
    requires PartitionActive(e, round) && ReachesQuorum(e, round, i) && ReachesQuorum(e, round, j)
    ensures e.groups.value[i] == e.groups.value[j]
  {
    if e.groups.value[i] != e.groups.value[j] {
      GroupsShare(e, round, i, j, |e.reputation|);
      AllGrows(e, i);
      TwoMajorities(Reachable(e, round, i), Reachable(e, round, j), TotalWeight(e), e.networkQuorum);
      assert false;
    }
  }

  lemma {:induction false} PoolSteady(e: Network, k: nat, l: nat, node: nat, upTo: nat)
    requires Valid(e) && node < |e.reputation| && upTo <= |e.reputation| && PartitionActive(e, k) && PartitionActive(e, l)
    ensures Pool(e, k, node, upTo) == Pool(e, l, node, upTo)
  {
    if upTo > 0 { PoolSteady(e, k, l, node, upTo - 1); }
  }

  /** In one round only a node that reaches the quorum decides. */
  lemma {:induction false} TurnsDecide(e: Network, round: nat, s: State, adv: Byte, row: seq<Option<Sample>>, i: nat)
    requires Valid(e) && ShapedRow(e, row) && |s| == |e.reputation| && i < |s|
    ensures Turns(e, round, s, adv, row)[i].decision.Some? ==> s[i].decision.Some? || ReachesQuorum(e, round, i)
  {
    if row != [] {
      var k := |row| - 1;
      TurnsDecide(e, round, s, adv, row[..k], i);
      hide Heard, BinaryLead, ReachesQuorum;
    }
  }

  /** Whoever has decided reached the quorum in some round before. */
  lemma {:induction false} DecidedInSomeRound(e: Network, r: Run, k: nat, i: nat)
    requires Valid(e) && Plays(e, r) && k < |r.states| && i < |e.reputation| && r.states[k][i].decision.Some?
    ensures exists l :: 0 <= l < k && ReachesQuorum(e, l, i)
  {
    if k > 0 {
      assert PlaysRound(e, r, k - 1);
      TurnsDecide(e, k - 1, r.states[k - 1], r.colours[k - 1 + 1], r.rows[k - 1], i);
      if r.states[k - 1][i].decision.Some? { DecidedInSomeRound(e, r, k - 1, i); }
    }
  }

  /** No fork across a partition: with a quorum above one half, all nodes that have decided in a run while
      the partition lasts lie in one group. */
  lemma OneSideDecides(e: Network, r: Run, k: nat, i: nat, j: nat)
    requires Valid(e) && Plays(e, r) && e.networkQuorum > 0.5 && e.groups.Some?
    requires k < |r.states| && k <= e.partitionRounds && i < |e.reputation| && j < |e.reputation|
    requires r.states[k][i].decision.Some? && r.states[k][j].decision.Some?
    ensures e.groups.value[i] == e.groups.value[j]
  {
    DecidedInSomeRound(e, r, k, i);
    DecidedInSomeRound(e, r, k, j);
    var l, m :| 0 <= l < k && ReachesQuorum(e, l, i) && 0 <= m < k && ReachesQuorum(e, m, j);
    PoolSteady(e, l, m, j, |e.reputation|);
    OneSideFinalises(e, l, i, j);
  }

  // ---------------------------------------------------------------- what a sample says

  function Arrivals(arrived: seq<bool>): set<nat> { set j: nat | j < |arrived| && arrived[j] }

  function ArrivedOnes(reports: seq<Byte>, arrived: seq<bool>): set<nat> requires |reports| == |arrived| {
    set j: nat | j < |arrived| && arrived[j] && reports[j] == 1
  }

  /** What each peer drawn reports, whether it arrives or not. */
  function Reports(e: Network, s: State, adv: Byte, picks: seq<nat>): (r: seq<Byte>)
    requires Valid(e) && |s| == |e.reputation| && forall j | 0 <= j < |picks| :: picks[j] < |s|
    ensures |r| == |picks| && forall j | 0 <= j < |r| :: r[j] == Report(e, s, adv, picks[j])
  {
    seq(|picks|, j requires 0 <= j < |picks| => Report(e, s, adv, picks[j]))
  }

  lemma ArrivalsGrow(arrived: seq<bool>)
    requires arrived != []
    ensures var n := |arrived| - 1; |Arrivals(arrived)| == |Arrivals(arrived[..n])| + if arrived[n] then 1 else 0
  {
    var n := |arrived| - 1;
    assert Arrivals(arrived) == Arrivals(arrived[..n]) + if arrived[n] then {n} else {};
  }

  lemma ArrivedOnesGrow(reports: seq<Byte>, arrived: seq<bool>)
    requires |reports| == |arrived| > 0
    ensures var n := |arrived| - 1;
      |ArrivedOnes(reports, arrived)| == |ArrivedOnes(reports[..n], arrived[..n])| + if arrived[n] && reports[n] == 1 then 1 else 0
  {
    var n := |arrived| - 1;
    assert ArrivedOnes(reports, arrived) == ArrivedOnes(reports[..n], arrived[..n]) + if arrived[n] && reports[n] == 1 then {n} else {};
  }

  /** A sample is counted by what arrived: a lost response is no vote, and every other one is its peer's report. */
  lemma {:induction false} HeardExactly(e: Network, s: State, adv: Byte, picks: seq<nat>, arrived: seq<bool>)
    requires Valid(e) && |s| == |e.reputation| && |picks| == |arrived| && forall j | 0 <= j < |picks| :: picks[j] < |s|
    ensures var votes := Heard(e, s, adv, picks, arrived);
      |votes| == |Arrivals(arrived)| && Ones(votes) == |ArrivedOnes(Reports(e, s, adv, picks), arrived)|
    decreases |picks|
  {
    if picks == [] {
      assert Arrivals(arrived) == {} && ArrivedOnes(Reports(e, s, adv, picks), arrived) == {};
      return;
    }
    hide Report, Arrivals, ArrivedOnes, Ones;
    var n, reports := |picks| - 1, Reports(e, s, adv, picks);
    HeardExactly(e, s, adv, picks[..n], arrived[..n]);
    assert reports[..n] == Reports(e, s, adv, picks[..n]);
    ArrivalsGrow(arrived);
    ArrivedOnesGrow(reports, arrived);
    var head := Heard(e, s, adv, picks[..n], arrived[..n]);
    assert Heard(e, s, adv, picks, arrived) == if arrived[n] then head + [reports[n]] else head;
    OnesAppend(head, reports[n]);
  }

  ghost predicate Settled(s: State) { forall i | 0 <= i < |s| && s[i].decision.Some? :: s[i].decision.value == s[i].pref }

  lemma {:induction false} TurnsSettled(e: Network, round: nat, s: State, adv: Byte, row: seq<Option<Sample>>)
    requires Valid(e) && ShapedRow(e, row) && |s| == |e.reputation| && Settled(s)
    ensures Settled(Turns(e, round, s, adv, row))
  {
    if row != [] {
      TurnsSettled(e, round, s, adv, row[..|row| - 1]);
      hide Heard, BinaryLead, ReachesQuorum;
    }
  }

  lemma {:induction false} StatesSettled(e: Network, r: Run, k: nat)
    requires Valid(e) && Plays(e, r) && k < |r.states|
    ensures Settled(r.states[k])
  {
    if k > 0 {
      StatesSettled(e, r, k - 1);
      assert PlaysRound(e, r, k - 1);
      TurnsSettled(e, k - 1, r.states[k - 1], r.colours[k - 1 + 1], r.rows[k - 1]);
    }
  }

  /** At every moment of every run an honest node reports the colour it prefers, decided or not, and an adversary the
      adversary's. */
  lemma ReportsPreference(e: Network, r: Run, k: nat, adv: Byte, i: nat)
    requires Valid(e) && Plays(e, r) && k < |r.states| && i < |e.reputation|
    ensures Report(e, r.states[k], adv, i) == if Honest(e, i) then r.states[k][i].pref else adv
  {
    StatesSettled(e, r, k);
  }

  function HonestSaying(e: Network, s: State, adv: Byte, one: bool, upTo: nat): set<nat>
    requires Valid(e) && |s| == |e.reputation| && upTo <= |s|
  {
    set i: nat | i < upTo && Honest(e, i) && (Report(e, s, adv, i) == 1) == one
  }

  lemma SayingGrows(e: Network, s: State, adv: Byte, one: bool, k: nat)
    requires Valid(e) && |s| == |e.reputation| && k < |s|
    ensures |HonestSaying(e, s, adv, one, k + 1)| ==
      |HonestSaying(e, s, adv, one, k)| + if Honest(e, k) && (Report(e, s, adv, k) == 1) == one then 1 else 0
  {
    hide Report;
    assert HonestSaying(e, s, adv, one, k + 1) ==
      HonestSaying(e, s, adv, one, k) + if Honest(e, k) && (Report(e, s, adv, k) == 1) == one then {k} else {};
  }

  lemma NobodySaying(e: Network, s: State, adv: Byte, one: bool)
    requires Valid(e) && |s| == |e.reputation|
    ensures HonestSaying(e, s, adv, one, 0) == {}
  {}

  lemma {:induction false} ReportingCounted(e: Network, s: State, adv: Byte, one: bool, upTo: nat)
    requires Valid(e) && |s| == |e.reputation| && upTo <= |s|
    ensures HonestReporting(e, s, adv, one, upTo) == |HonestSaying(e, s, adv, one, upTo)|
  {
    hide Report, HonestSaying;
    if upTo == 0 {
      NobodySaying(e, s, adv, one);
    } else {
      ReportingCounted(e, s, adv, one, upTo - 1);
      SayingGrows(e, s, adv, one, upTo - 1);
    }
  }

  /** The fixed adversary keeps its colour; the adaptive one backs whichever colour fewer honest nodes report, and 1 if
      they are as many. */
  lemma AdversaryBacksMinority(e: Network, s: State, adv: Byte)
    requires Valid(e) && |s| == |e.reputation|
    ensures AdversaryColour(e, s, adv) ==
      if !e.adaptive then adv
      else if |HonestSaying(e, s, adv, true, |s|)| > |HonestSaying(e, s, adv, false, |s|)| then 0 else 1
  {
    hide HonestSaying, HonestReporting;
    ReportingCounted(e, s, adv, true, |s|);
    ReportingCounted(e, s, adv, false, |s|);
  }

  // ---------------------------------------------------------------- what a node may count on

  /** The weight a node votes with: its reputation if weighted, but never less than nothing; else one. */
  function Weights(e: Network): (w: Vec)
    ensures |w| == |e.reputation| && NonNegative(w)
  {
    seq(|e.reputation|, i requires 0 <= i < |e.reputation| =>
      if !e.weighted then 1.0 else if e.reputation[i] > 0.0 then e.reputation[i] else 0.0)
  }

  /** Those on a node's side while the partition lasts; everybody otherwise. */
  function SideOf(e: Network, round: nat, node: nat): set<nat>
    requires Valid(e) && node < |e.reputation|
  {
    set i: nat | i < |e.reputation| && (e.groups.Some? && round < e.partitionRounds ==> e.groups.value[i] == e.groups.value[node])
  }

  function SideMass(e: Network, round: nat, node: nat, k: nat): real
    requires Valid(e) && node < |e.reputation| && k <= |e.reputation|
  {
    SumIn(SideOf(e, round, node), Weights(e)[..k])
  }

  lemma SideGrows(e: Network, round: nat, node: nat, k: nat)
    requires Valid(e) && node < |e.reputation| && k < |e.reputation|
    ensures SideMass(e, round, node, k + 1) == SideMass(e, round, node, k) +
      if !PartitionActive(e, round) || e.groups.value[k] == e.groups.value[node] then Weight(e, k) else 0.0
  {
    assert Weights(e)[..k + 1][..k] == Weights(e)[..k];
  }

  lemma BothGrow(e: Network, round: nat, node: nat, k: nat)
    requires Valid(e) && node < |e.reputation| && k < |e.reputation| && PoolMass(e, round, node, k) == SideMass(e, round, node, k)
    ensures PoolMass(e, round, node, k + 1) == SideMass(e, round, node, k + 1)
  {
    hide PoolMass, SideMass, Weight;
    PoolMassGrows(e, round, node, k);
    SideGrows(e, round, node, k);
  }

  lemma {:induction false} PoolIsSide(e: Network, round: nat, node: nat, upTo: nat)
    requires Valid(e) && node < |e.reputation| && upTo <= |e.reputation|
    ensures PoolMass(e, round, node, upTo) == SideMass(e, round, node, upTo)
  {
    if upTo == 0 { return; }
    hide PoolMass, SideMass;
    PoolIsSide(e, round, node, upTo - 1);
    BothGrow(e, round, node, upTo - 1);
  }

  lemma ReachableIs(e: Network, round: nat, node: nat)
    requires Valid(e) && node < |e.reputation|
    ensures Reachable(e, round, node) == SumIn(SideOf(e, round, node), Weights(e)) && TotalWeight(e) == Sum(Weights(e))
  {
    PoolIsSide(e, round, node, |e.reputation|);
    assert Weights(e)[..|e.reputation|] == Weights(e);
    assert seq(|e.reputation|, i requires 0 <= i < |e.reputation| => Weight(e, i)) == Weights(e);
    hide Sum, SumIn, Pool, SideOf;
  }

  /** A node may finalise exactly if no quorum is asked for, or its side holds that share of all the weight. */
  lemma QuorumIsShare(e: Network, round: nat, node: nat)
    requires Valid(e) && node < |e.reputation|
    ensures var side, all := SumIn(SideOf(e, round, node), Weights(e)), Sum(Weights(e));
      ReachesQuorum(e, round, node) <==> e.networkQuorum <= 0.0 || (all > 0.0 && side >= e.networkQuorum * all)
  {
    hide Sum, SumIn, Pool, SideOf, Reachable, TotalWeight, Weights;
    ReachableIs(e, round, node);
    if !PartitionActive(e, round) { EverybodyElse(e, round, node); }
    if Sum(Weights(e)) > 0.0 {
      ShareOrder(SumIn(SideOf(e, round, node), Weights(e)), Sum(Weights(e)), e.networkQuorum);
    }
  }

  lemma EverybodyElse(e: Network, round: nat, node: nat)
    requires Valid(e) && node < |e.reputation| && !PartitionActive(e, round)
    ensures SumIn(SideOf(e, round, node), Weights(e)) == Sum(Weights(e))
  {
    var others := Others(SideOf(e, round, node), |e.reputation|);
    assert others == {};
    SumSplits(SideOf(e, round, node), Weights(e), |e.reputation|);
    SumInZero(others, Weights(e));
  }

  // ---------------------------------------------------------------- turns and sides

  lemma {:induction false} TurnsLeave(e: Network, round: nat, s: State, adv: Byte, row: seq<Option<Sample>>, m: nat, j: nat)
    requires Valid(e) && ShapedRow(e, row) && |s| == |e.reputation| && m <= |row| && j < |s|
    ensures j < m ==> Turns(e, round, s, adv, row)[j] == Turns(e, round, s, adv, row[..m])[j]
    ensures j >= |row| ==> Turns(e, round, s, adv, row)[j] == s[j]
    decreases |row|
  {
    hide Heard, BinaryLead, ReachesQuorum, Advance;
    if |row| > m {
      TurnsLeave(e, round, s, adv, row[..|row| - 1], m, j);
      assert row[..|row| - 1][..m] == row[..m];
    } else if row != [] {
      assert row[..m] == row;
      TurnsLeave(e, round, s, adv, row[..|row| - 1], |row| - 1, j);
    }
  }

  /** Nodes take turns: each observes its sample as the earlier nodes of the round have left them and the later ones
      have not yet moved, by the voting rule and with the quorum of its own side. */
  lemma EachInTurn(e: Network, round: nat, s: State, adv: Byte, row: seq<Option<Sample>>, i: nat)
    requires Valid(e) && ShapedRow(e, row) && |row| == |s| == |e.reputation| && i < |s|
    ensures var t := Turns(e, round, s, adv, row);
      t[i] ==
        if row[i].None? then s[i]
        else
          var votes := Heard(e, t[..i] + s[i..], adv, row[i].value.picks, row[i].value.arrived);
          Advance(s[i], Round(Some(BinaryLead(votes)), e.params, ReachesQuorum(e, round, i)))
  {
    hide Heard, BinaryLead, ReachesQuorum, Advance;
    var t, before := Turns(e, round, s, adv, row), Turns(e, round, s, adv, row[..i]);
    forall j: nat | j < |s| ensures before[j] == (t[..i] + s[i..])[j] {
      TurnsLeave(e, round, s, adv, row, i, j);
      TurnsLeave(e, round, s, adv, row[..i], i, j);
    }
    assert before == t[..i] + s[i..];
    TurnsLeave(e, round, s, adv, row, i + 1, i);
    assert row[..i + 1][..i] == row[..i];
  }

  /** The side has no adversary on it. */
  ghost predicate HonestSide(e: Network, side: nat) requires Valid(e) && e.groups.Some? {
    forall i | 0 <= i < |e.reputation| && e.groups.value[i] == side :: Honest(e, i)
  }

  ghost predicate SideAtZero(e: Network, s: State, side: nat)
    requires Valid(e) && e.groups.Some? && |s| == |e.reputation|
  {
    forall i | 0 <= i < |s| && e.groups.value[i] == side :: s[i].pref == 0 && (s[i].decision.Some? ==> s[i].decision.value == 0)
  }

  lemma {:induction false} ZeroReports(e: Network, s: State, adv: Byte, picks: seq<nat>, arrived: seq<bool>)
    requires Valid(e) && |s| == |e.reputation| && |picks| == |arrived| && forall j | 0 <= j < |picks| :: picks[j] < |s|
    requires forall j | 0 <= j < |picks| :: Report(e, s, adv, picks[j]) == 0
    ensures Ones(Heard(e, s, adv, picks, arrived)) == 0
  {
    if picks != [] {
      var n := |picks| - 1;
      ZeroReports(e, s, adv, picks[..n], arrived[..n]);
      var head := Heard(e, s, adv, picks[..n], arrived[..n]);
      assert Heard(e, s, adv, picks, arrived) == if arrived[n] then head + [Report(e, s, adv, picks[n])] else head;
      OnesAppend(head, Report(e, s, adv, picks[n]));
    }
  }

  lemma ObservedAtZero(e: Network, round: nat, s: State, adv: Byte, node: nat, x: Sample, side: nat)
    requires Valid(e) && e.groups.Some? && |s| == |e.reputation| && node < |s| && e.params.alpha >= 1
    requires HonestSide(e, side) && SideAtZero(e, s, side) && round < e.partitionRounds && Legal(e, round, node, x)
    ensures SideAtZero(e, Observed(e, round, s, adv, node, x), side)
  {
    hide Reachable, Weight, InCluster, ReachesQuorum, Heard, SomeFull;
    if e.groups.value[node] == side {
      forall j | 0 <= j < |x.picks| ensures Report(e, s, adv, x.picks[j]) == 0 {
        assert Drawable(e, round, node, x.picks[j]);
      }
      ZeroReports(e, s, adv, x.picks, x.arrived);
    }
  }

  lemma {:induction false} TurnsAtZero(e: Network, round: nat, s: State, adv: Byte, row: seq<Option<Sample>>, side: nat)
    requires Valid(e) && e.groups.Some? && ShapedRow(e, row) && |s| == |e.reputation| && e.params.alpha >= 1
    requires HonestSide(e, side) && SideAtZero(e, s, side) && round < e.partitionRounds
    requires forall i | 0 <= i < |row| && row[i].Some? :: Legal(e, round, i, row[i].value)
    ensures SideAtZero(e, Turns(e, round, s, adv, row), side)
  {
    hide Legal, SideAtZero, HonestSide, Observed;
    if row != [] {
      var i := |row| - 1;
      TurnsAtZero(e, round, s, adv, row[..i], side);
      if row[i].Some? { ObservedAtZero(e, round, Turns(e, round, s, adv, row[..i]), adv, i, row[i].value, side); }
    }
  }

  /** A PARTITION ISOLATES. While it lasts a side without adversaries neither prefers nor decides anything but 0,
      whoever sits on the other sides, whatever weights they have and whatever was drawn. */
  lemma {:induction false} SideStaysAtZero(e: Network, r: Run, k: nat, side: nat)
    requires Valid(e) && e.groups.Some? && Plays(e, r) && k < |r.states| && k <= e.partitionRounds
    requires HonestSide(e, side) && e.params.alpha >= 1
    ensures SideAtZero(e, r.states[k], side)
  {
    if k > 0 {
      SideStaysAtZero(e, r, k - 1, side);
      assert PlaysRound(e, r, k - 1);
      hide SideAtZero, HonestSide, Turns, Legal;
      TurnsAtZero(e, k - 1, r.states[k - 1], r.colours[k - 1 + 1], r.rows[k - 1], side);
    }
  }
}
