/** Progress: a worker that holds a quorum of votes for one hash decides it within beta ticks. */
module FinalityLiveness {
  import opened Bytes
  import opened Quorum
  import opened Voting
  import opened FinalityProof
  import opened FinalityWorker
  import opened FinalityRun

  /** Nothing stops a tick at this height before its vote. */
  ghost predicate Serves(b: Build, chain: Chain, h: U32) requires b.cadence.Valid() {
    var at := PinnedAt(b.cadence, chain, h);
    && h > chain.finalized && TargetHash(chain, h).1 && chain.specAt(at) == Some(b.spec)
    && CommitteeFor(b.cadence, chain, h, at) != {}
  }

  /** Of the votes in hand, one per sitting account and for this height, a quorum is for `hash`. */
  ghost predicate Carries(w: WorkerState, hash: Digest) {
    && (forall a | a in w.votes :: a in w.committee && w.votes[a].height == w.height)
    && |Selected(w.height, hash, w.votes)| >= Alpha(|w.committee|)
  }

  /** A tick that casts no vote of its own and does not get to finalise. */
  ghost function Quiet(b: Build, w: WorkerState, chain: Chain): Outcome requires b.cadence.Valid() {
    TickOf(b, w, chain, None, false, chain)
  }

  ghost function AfterTicks(b: Build, w: WorkerState, chain: Chain, k: nat): WorkerState requires b.cadence.Valid() {
    if k == 0 then w else Quiet(b, AfterTicks(b, w, chain, k - 1), chain).next
  }

  function Rounds(b: Build): nat { if b.cadence.beta == 0 then 1 else b.cadence.beta }

  // ---------------------------------------------------------------- a quorum leads

  lemma {:induction false} TwoCounts(votes: seq<Hash>, x: Hash, y: Hash)
    requires x != y
    ensures multiset(votes)[x] + multiset(votes)[y] <= |votes|
  {
    if votes != [] {
      var n := |votes| - 1;
      TwoCounts(votes[..n], x, y);
      assert votes == votes[..n] + [votes[n]];
    }
  }

  lemma MajorityLeads(votes: seq<Hash>, y: Hash, k: nat)
    requires multiset(votes)[y] >= Alpha(k) && |votes| <= k
    ensures LeadingOf(votes) == Some((y, multiset(votes)[y]))
  {
    AlphaIsTheWall(k, multiset(votes)[y]);
    assert y in votes by { assert multiset(votes)[y] > 0; }
    var lead := LeadingOf(votes).value.0;
    assert Behind(multiset(votes), y, lead);
    if lead != y { TwoCounts(votes, lead, y); }
  }

  /** What a count makes of a quorum for `y`. */
  lemma CountConfirms(b: Build, w: WorkerState, y: Digest)
    requires Carries(w, y) && w.ballot.decision.None?
    ensures var streak := if w.ballot.pref == y then w.ballot.streak + 1 else 1;
      Counted(b, w) == w.(belowQuorum := 0, ballot := Ballot(y, streak, if streak >= b.cadence.beta then Some(y) else None))
  {
    hide LeadingOf, Alpha, Counted, Tally, Carries;
    var tally := Tally(Ascending(w.votes.Keys), w.votes);
    QuorumInHand(w, y);
    MajorityLeads(tally, y, |w.committee|);
    CountedIs(b, w);
  }

  lemma CountedIs(b: Build, w: WorkerState)
    requires |w.votes| * 10 >= |w.committee| * 6
    ensures Counted(b, w) == w.(belowQuorum := 0,
      ballot := Advance(w.ballot, Round(LeadingOf(Tally(Ascending(w.votes.Keys), w.votes)), RoundParams(b, |w.committee|), true)))
  {
    hide LeadingOf, Tally, Advance, RoundParams;
  }

  /** The count of a quorum in hand, and the guard it clears. */
  lemma QuorumInHand(w: WorkerState, y: Digest)
    requires Carries(w, y)
    ensures var tally := Tally(Ascending(w.votes.Keys), w.votes);
      multiset(tally)[y] >= Alpha(|w.committee|) && |tally| == |w.votes| <= |w.committee|
    ensures |w.votes| * 10 >= |w.committee| * 6
  {
    var order, k := Ascending(w.votes.Keys), |w.committee|;
    MatchingCounts(order, w.votes, w.height, y);
    CardinalityOfSubset(w.votes.Keys, w.committee);
    assert |order| == |w.votes.Keys| == |w.votes|;
    CountWithin(Tally(order, w.votes), y);
    AlphaIsTheWall(k, multiset(Tally(order, w.votes))[y]);
    hide Alpha, Selected;
  }

  lemma CountWithin(votes: seq<Hash>, y: Hash)
    ensures multiset(votes)[y] <= |votes|
  {
    assert multiset(votes) == multiset(votes)[y := 0] + multiset{}[y := multiset(votes)[y]];
  }

  /** And of one decided before. */
  lemma CountKeepsDecision(b: Build, w: WorkerState, y: Digest)
    requires Carries(w, y) && w.ballot.decision.Some?
    ensures Counted(b, w) == w.(belowQuorum := 0)
  {
    hide LeadingOf, Alpha, Tally;
    QuorumInHand(w, y);
  }

  // ---------------------------------------------------------------- ticks

  lemma PreparedServed(b: Build, w: WorkerState, chain: Chain)
    requires b.cadence.Valid() && Serves(b, chain, w.height)
    ensures Prepared(b, w, chain) == (Refreshed(b, w, chain), Some(TargetHash(chain, w.height).0))
  {
    hide PinnedAt, CommitteeFor;
  }

  /** A tick counts what the refreshed worker holds. */
  lemma TickCounts(b: Build, w: WorkerState, chain: Chain)
    requires b.cadence.Valid() && Serves(b, chain, w.height)
    ensures var o := Quiet(b, w, chain);
      o.counted == Counted(b, Refreshed(b, w, chain)) && o.next == o.counted && o.attempt == AttemptOf(o.counted)
  {
    PreparedServed(b, w, chain);
    hide Prepared, Refreshed, Counted;
  }

  /** The refreshed view with another ballot: what the ticks leave. */
  predicate Steady(now: WorkerState, v: WorkerState) {
    v == now.(ballot := v.ballot, belowQuorum := 0)
  }

  lemma RefreshedAgain(b: Build, w: WorkerState, chain: Chain, v: WorkerState)
    requires b.cadence.Valid() && Steady(Refreshed(b, w, chain), v)
    ensures Refreshed(b, v, chain) == v && v.height == w.height
  {
    hide PinnedAt, CommitteeFor;
    assert Retained(v.votes, v.committee) == v.votes;
  }

  lemma SteadyCarries(now: WorkerState, v: WorkerState, y: Digest)
    requires Steady(now, v) && Carries(now, y)
    ensures Carries(v, y)
  {}

  /** On the way to deciding `y`: confirmed at least `j` times in a row, or decided. */
  predicate OnCourse(beta: nat, ballot: Ballot<Digest>, y: Digest, j: nat) {
    && (ballot.decision == None || ballot.decision == Some(y))
    && (ballot.decision == None ==> ballot.pref == y && j <= ballot.streak < beta)
  }

  lemma FirstOnCourse(b: Build, now: WorkerState, y: Digest)
    requires Carries(now, y) && now.ballot.decision.None?
    ensures Steady(now, Counted(b, now)) && OnCourse(b.cadence.beta, Counted(b, now).ballot, y, 1)
  {
    CountConfirms(b, now, y);
    hide Counted, Carries;
  }

  lemma StaysOnCourse(b: Build, now: WorkerState, v: WorkerState, y: Digest, j: nat)
    requires Steady(now, v) && Carries(v, y) && OnCourse(b.cadence.beta, v.ballot, y, j)
    ensures Steady(now, Counted(b, v)) && OnCourse(b.cadence.beta, Counted(b, v).ballot, y, j + 1)
  {
    if v.ballot.decision.None? { CountConfirms(b, v, y); } else { CountKeepsDecision(b, v, y); }
    hide Counted, Carries;
  }

  lemma {:induction false} TicksConfirm(b: Build, w: WorkerState, chain: Chain, y: Digest, k: nat)
    requires b.cadence.Valid() && Serves(b, chain, w.height) && Carries(Refreshed(b, w, chain), y) && w.ballot.decision.None?
    requires k > 0
    ensures Steady(Refreshed(b, w, chain), AfterTicks(b, w, chain, k))
    ensures OnCourse(b.cadence.beta, AfterTicks(b, w, chain, k).ballot, y, k)
  {
    hide Quiet, Counted, Carries, OnCourse, AttemptOf, Serves, Steady;
    var now, v := Refreshed(b, w, chain), AfterTicks(b, w, chain, k - 1);
    if k == 1 {
      TickCounts(b, w, chain);
      FirstOnCourse(b, now, y);
    } else {
      TicksConfirm(b, w, chain, y, k - 1);
      RefreshedAgain(b, w, chain, v);
      SteadyCarries(now, v, y);
      TickCounts(b, v, chain);
      StaysOnCourse(b, now, v, y, k - 1);
    }
  }

  /** LIVENESS. A worker that is undecided at a height, and whose votes in hand after the prune carry a quorum
      for `y`, has decided `y` after beta ticks, whatever it preferred before, and attempts to finalise it. */
  lemma QuorumDecides(b: Build, w: WorkerState, chain: Chain, y: Digest)
    requires b.cadence.Valid() && Serves(b, chain, w.height) && Carries(Refreshed(b, w, chain), y) && w.ballot.decision.None?
    ensures var v := AfterTicks(b, w, chain, Rounds(b));
      Steady(Refreshed(b, w, chain), v) && v.height == w.height && v.ballot.decision == Some(y)
    ensures Quiet(b, AfterTicks(b, w, chain, Rounds(b) - 1), chain).attempt == AttemptOf(AfterTicks(b, w, chain, Rounds(b)))
    ensures Quiet(b, AfterTicks(b, w, chain, Rounds(b) - 1), chain).counted == AfterTicks(b, w, chain, Rounds(b))
  {
    hide Quiet, Counted, Carries, AttemptOf, Serves;
    var k := Rounds(b);
    var before := AfterTicks(b, w, chain, k - 1);
    TicksConfirm(b, w, chain, y, k);
    if k > 1 {
      TicksConfirm(b, w, chain, y, k - 1);
      RefreshedAgain(b, w, chain, before);
    }
    TickCounts(b, before, chain);
  }

  // ---------------------------------------------------------------- a stall

  /** Fewer than 60% of the committee have been heard. */
  predicate Short(w: WorkerState) { 10 * |w.votes| < 6 * |w.committee| }

  /** The refreshed view, undecided, after some ticks of a stall. */
  predicate Stalled(now: WorkerState, v: WorkerState, ticks: nat) {
    && v == now.(ballot := v.ballot, belowQuorum := v.belowQuorum) && v.ballot.decision.None?
    && v.belowQuorum == if now.belowQuorum + ticks <= U32_MAX then now.belowQuorum + ticks else U32_MAX
  }

  lemma CountStalls(b: Build, now: WorkerState, v: WorkerState, ticks: nat)
    requires Short(now) && Stalled(now, v, ticks)
    ensures Stalled(now, Counted(b, v), ticks + 1)
  {
    hide LeadingOf, Tally, Alpha;
  }

  lemma StalledAgain(b: Build, w: WorkerState, chain: Chain, v: WorkerState, ticks: nat)
    requires b.cadence.Valid() && Stalled(Refreshed(b, w, chain), v, ticks)
    ensures Refreshed(b, v, chain) == v && v.height == w.height
  {
    hide PinnedAt, CommitteeFor;
    assert Retained(v.votes, v.committee) == v.votes;
  }

  /** SAFETY OVER LIVENESS. While fewer than 60% of the committee have been heard nothing is decided, however many
      ticks pass and whatever the votes are; and the ticks are counted. */
  lemma {:induction false} StallDecidesNothing(b: Build, w: WorkerState, chain: Chain, k: nat)
    requires b.cadence.Valid() && Serves(b, chain, w.height) && w.ballot.decision.None? && Short(Refreshed(b, w, chain)) && k > 0
    ensures Stalled(Refreshed(b, w, chain), AfterTicks(b, w, chain, k), k)
    ensures Quiet(b, AfterTicks(b, w, chain, k - 1), chain).attempt == None
  {
    hide Quiet, Counted, AttemptOf, Serves, Refreshed, Stalled, Short;
    var now, v := Refreshed(b, w, chain), AfterTicks(b, w, chain, k - 1);
    if k == 1 {
      StallBegins(b, w, chain);
      TickCounts(b, w, chain);
      CountStalls(b, now, now, 0);
    } else {
      StallDecidesNothing(b, w, chain, k - 1);
      StalledAgain(b, w, chain, v, k - 1);
      TickCounts(b, v, chain);
      CountStalls(b, now, v, k - 1);
    }
    NothingToAttempt(now, AfterTicks(b, w, chain, k), k);
  }

  lemma StallBegins(b: Build, w: WorkerState, chain: Chain)
    requires b.cadence.Valid() && w.ballot.decision.None?
    ensures Stalled(Refreshed(b, w, chain), Refreshed(b, w, chain), 0)
  {
    hide PinnedAt;
  }

  lemma NothingToAttempt(now: WorkerState, v: WorkerState, k: nat)
    requires Stalled(now, v, k)
    ensures AttemptOf(v) == None
  {}

  // ---------------------------------------------------------------- in the network

  function QuietTick(n: nat, chain: Chain): Event { Tick(n, chain, None, false, chain) }

  ghost function TickedSystem(s: Setting, sys: System, n: nat, chain: Chain, k: nat): (r: System)
    requires s.build.cadence.Valid() && n in sys.workers
    ensures n in r.workers
  {
    if k == 0 then sys else Step(s, TickedSystem(s, sys, n, chain, k - 1), QuietTick(n, chain))
  }

  lemma QuietStep(s: Setting, sys: System, n: nat, chain: Chain)
    requires s.build.cadence.Valid() && n in sys.workers
    ensures var o, after := Quiet(s.build, sys.workers[n], chain), Step(s, sys, QuietTick(n, chain));
      && after.workers[n] == o.next && sys.decided <= after.decided
      && (o.attempt.Some? ==> DecidedBy(after, n, o.attempt.value.height, o.attempt.value.hash))
  {
    hide TickOf, VoicesAfter;
    var o := OutcomeOf(s, sys, QuietTick(n, chain));
    var voices := VoicesAfter(s, s.build, sys.workers[n], chain, o, VoicesFor(sys, n));
    if o.attempt.Some? {
      assert Tallied(n, o.attempt.value.height, o.attempt.value.hash, voices) in Step(s, sys, QuietTick(n, chain)).decided;
    }
  }

  lemma {:induction false} TickedWorker(s: Setting, sys: System, n: nat, chain: Chain, k: nat)
    requires s.build.cadence.Valid() && n in sys.workers
    ensures TickedSystem(s, sys, n, chain, k).workers[n] == AfterTicks(s.build, sys.workers[n], chain, k)
    ensures sys.decided <= TickedSystem(s, sys, n, chain, k).decided
    ensures k > 0 ==>
      Recorded(TickedSystem(s, sys, n, chain, k), n, Quiet(s.build, AfterTicks(s.build, sys.workers[n], chain, k - 1), chain))
  {
    hide Quiet, Step, DecidedBy;
    if k > 0 {
      TickedWorker(s, sys, n, chain, k - 1);
      QuietStep(s, TickedSystem(s, sys, n, chain, k - 1), n, chain);
    }
  }

  ghost predicate Recorded(sys: System, n: nat, o: Outcome) {
    o.attempt.Some? ==> DecidedBy(sys, n, o.attempt.value.height, o.attempt.value.hash)
  }

  ghost predicate DecidedBy(sys: System, n: nat, number: U64, hash: Digest) {
    exists c :: c in sys.decided && c.node == n && c.number == number && c.hash == hash
  }

  lemma DecisionAttempts(v: WorkerState, y: Digest)
    requires v.ballot.decision == Some(y)
    ensures AttemptOf(v).Some? && AttemptOf(v).value.height == v.height && AttemptOf(v).value.hash == y
  {}

  /** In the network: within beta ticks of that worker the decision is made, next to all made before. */
  lemma QuorumDecidesInRun(s: Setting, sys: System, n: nat, chain: Chain, y: Digest)
    requires s.build.cadence.Valid() && n in sys.workers
    requires Serves(s.build, chain, sys.workers[n].height) && sys.workers[n].ballot.decision.None?
    requires Carries(Refreshed(s.build, sys.workers[n], chain), y)
    ensures var after := TickedSystem(s, sys, n, chain, Rounds(s.build));
      sys.decided <= after.decided && DecidedBy(after, n, sys.workers[n].height, y)
  {
    hide Serves, Carries, AfterTicks, TickedSystem, Refreshed, Quiet, DecidedBy, AttemptOf, Steady;
    var k := Rounds(s.build);
    QuorumDecides(s.build, sys.workers[n], chain, y);
    DecisionAttempts(AfterTicks(s.build, sys.workers[n], chain, k), y);
    TickedWorker(s, sys, n, chain, k);
  }

  /** A node that has forgotten a decision makes another one. If it holds `d` for a height but is undecided
      there, as an unsettled restart leaves it, and a quorum of votes for another hash reaches it, then after
      beta ticks it has decided both. */
  lemma ForgottenDecisionIsRemade(s: Setting, sys: System, d: Claim, chain: Chain, y: Digest)
    requires s.build.cadence.Valid() && d in sys.decided && d.node in sys.workers
    requires sys.workers[d.node].height == d.number && sys.workers[d.node].ballot.decision.None?
    requires Serves(s.build, chain, sys.workers[d.node].height) && Carries(Refreshed(s.build, sys.workers[d.node], chain), y)
    ensures var after := TickedSystem(s, sys, d.node, chain, Rounds(s.build));
      DecidedBy(after, d.node, d.number, d.hash) && DecidedBy(after, d.node, d.number, y)
  {
    QuorumDecidesInRun(s, sys, d.node, chain, y);
    hide Serves, Carries, Refreshed, TickedSystem;
    assert d in TickedSystem(s, sys, d.node, chain, Rounds(s.build)).decided;
  }
}
