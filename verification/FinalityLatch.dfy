/** Irreversibility: one node decides at most one hash per height, unless it forgets. */
module FinalityLatch {
  import opened Bytes
  import opened Voting
  import opened FinalityProof
  import opened FinalityWorker
  import opened FinalityRun

  /** Block numbers stay below the 32-bit ceiling, a successful `finalize_block` moves the finalised number
      to at least the height it finalised, and a node restarts only once what it has decided is final. */
  ghost predicate Progresses(s: Setting, sys: System, e: Event) requires s.build.cadence.Valid() && Enabled(sys, e) {
    match e
    case Tick(_, chain, _, finalizes, after) =>
      && chain.finalized + s.build.cadence.step <= U32_MAX && after.finalized + s.build.cadence.step <= U32_MAX
      && (finalizes ==> after.finalized >= OutcomeOf(s, sys, e).counted.height)
    case Receive(_, _) => true
    case Import(_, _, _, _, _, _) => true
    case Restart(n, chain) => Settled(s, sys, n, chain)
  }

  /** A node that starts here aims past everything it has decided. */
  ghost predicate Settled(s: Setting, sys: System, n: nat, chain: Chain) {
    forall d | d in sys.decided && d.node == n :: d.number < Aim(s.build.cadence, chain.finalized)
  }

  ghost predicate Latched(sys: System) {
    && (forall d | d in sys.decided ::
      && d.node in sys.workers
      && (d.number < sys.workers[d.node].height
          || (d.number == sys.workers[d.node].height && sys.workers[d.node].ballot.decision == Some(d.hash))))
    && (forall d, d' | d in sys.decided && d' in sys.decided && d.node == d'.node && d.number == d'.number :: d.hash == d'.hash)
  }

  /** Counting never changes a decision; only finalising moves the target, and then forwards. */
  ghost predicate OutcomeLatched(w: WorkerState, o: Outcome) {
    && w.height <= o.counted.height <= o.next.height
    && (w.height == o.counted.height && w.ballot.decision.Some? ==> o.counted.ballot.decision == w.ballot.decision)
    && (o.counted.height == o.next.height ==> o.next.ballot == o.counted.ballot)
    && (o.attempt.Some? ==> o.attempt == AttemptOf(o.counted))
  }

  lemma VoteAndCountLatches(b: Build, w: WorkerState, key: Option<VoteKey>, pref: Digest, finalizes: bool, after: Chain)
    requires b.cadence.Valid() && after.finalized + b.cadence.step <= U32_MAX
    requires finalizes ==> after.finalized >= w.height
    ensures OutcomeLatched(w, VoteAndCount(b, w, key, pref, finalizes, after))
  {}

  lemma PreparedLatches(b: Build, w: WorkerState, chain: Chain)
    requires b.cadence.Valid() && chain.finalized + b.cadence.step <= U32_MAX
    ensures var w' := Prepared(b, w, chain).0;
      w.height <= w'.height && (w.height == w'.height ==> w'.ballot == w.ballot)
  {}

  lemma TickLatches(b: Build, w: WorkerState, chain: Chain, key: Option<VoteKey>, finalizes: bool, after: Chain)
    requires b.cadence.Valid()
    requires chain.finalized + b.cadence.step <= U32_MAX && after.finalized + b.cadence.step <= U32_MAX
    requires finalizes ==> after.finalized >= TickOf(b, w, chain, key, finalizes, after).counted.height
    ensures OutcomeLatched(w, TickOf(b, w, chain, key, finalizes, after))
  {
    PreparedLatches(b, w, chain);
    var p := Prepared(b, w, chain);
    if p.1.Some? {
      VoteAndCountLatches(b, p.0, key, p.1.value, finalizes, after);
    }
  }

  lemma DecisionLatched(sys: System, after: System, n: nat, o: Outcome, voices: nat)
    requires Latched(sys) && n in sys.workers && OutcomeLatched(sys.workers[n], o)
    requires after.workers == sys.workers[n := o.next]
    requires after.decided == sys.decided + Mine(n, o, voices)
    ensures Latched(after)
  {
    if o.attempt.Some? {
      var mine := Tallied(n, o.attempt.value.height, o.attempt.value.hash, voices);
      assert o.counted.ballot.decision == Some(mine.hash) && mine.number == o.counted.height;
      forall d | d in sys.decided && d.node == n && d.number == mine.number ensures d.hash == mine.hash {
        assert sys.workers[n].ballot.decision == Some(d.hash);
      }
      assert forall d | d in after.decided :: d in sys.decided || d == mine;
    }
  }

  lemma StepLatches(s: Setting, sys: System, e: Event)
    requires s.build.cadence.Valid() && Enabled(sys, e) && Latched(sys) && Progresses(s, sys, e)
    ensures Latched(Step(s, sys, e))
  {
    hide TickOf, Latched, OutcomeLatched, Reception, DecodeVote, ReceiveOf, Settled;
    match e {
      case Tick(n, chain, key, finalizes, after) =>
        var o := OutcomeOf(s, sys, e);
        TickLatches(s.build, sys.workers[n], chain, key, finalizes, after);
        DecisionLatched(sys, Step(s, sys, e), n, o, VoicesAfter(s, s.build, sys.workers[n], chain, o, VoicesFor(sys, n)));
      case Receive(n, message) =>
        ReceiveLatches(s.build, sys.workers[n], message);
        DecisionLatched(sys, Step(s, sys, e), n, Idle(ReceiveOf(s.build, sys.workers[n], message)), 0);
      case Import(_, _, _, _, _, _) => ImportLatches(s, sys, e);
      case Restart(_, _) => RestartLatchesExactly(s, sys, e);
    }
  }

  lemma ReceiveLatches(b: Build, w: WorkerState, message: ByteString)
    ensures OutcomeLatched(w, Idle(ReceiveOf(b, w, message)))
  {}

  lemma ImportLatches(s: Setting, sys: System, e: Event)
    requires s.build.cadence.Valid() && Enabled(sys, e) && e.Import? && Latched(sys)
    ensures Latched(Step(s, sys, e))
  {
    if Reception(s, e.chain, e.number, e.hash, e.proof) == Accepted { ReceptionReads(s, e.chain, e.number, e.hash, e.proof); }
    hide Reception, ProofVoices, VotesIn;
  }

  /** A decision lives in memory. A restart keeps a node from deciding a height twice exactly if it has finality
      past everything the node decided; else the node is undecided again at a height it has decided. */
  lemma RestartLatchesExactly(s: Setting, sys: System, e: Event)
    requires s.build.cadence.Valid() && Enabled(sys, e) && e.Restart? && Latched(sys)
    ensures Latched(Step(s, sys, e)) <==> Settled(s, sys, e.node, e.chain)
  {
    hide PinnedAt;
  }

  lemma {:induction false} RunLatches(s: Setting, states: seq<System>, events: seq<Event>, i: nat)
    requires s.build.cadence.Valid() && Runs(s, states, events) && i < |states|
    requires forall j | 0 <= j < |events| :: Enabled(states[j], events[j]) && Progresses(s, states[j], events[j])
    ensures Latched(states[i])
  {
    if i > 0 {
      RunLatches(s, states, events, i - 1);
      assert Moves(s, states[i - 1], events[i - 1], states[i]);
      StepLatches(s, states[i - 1], events[i - 1]);
    }
  }

  /** Irreversibility: over a whole run a node's own tally decides at most one hash per height. */
  lemma OneDecisionPerHeight(s: Setting, states: seq<System>, events: seq<Event>, c: Claim, d: Claim)
    requires s.build.cadence.Valid() && Runs(s, states, events)
    requires forall j | 0 <= j < |events| :: Enabled(states[j], events[j]) && Progresses(s, states[j], events[j])
    requires c in states[|events|].decided && d in states[|events|].decided && c.node == d.node && c.number == d.number
    ensures c.hash == d.hash
  {
    RunLatches(s, states, events, |events|);
  }
}
