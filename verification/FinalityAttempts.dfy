/** The proofs a worker builds, on its first decision and on every retry, and who accepts them. */
module FinalityAttempts {
  import opened Bytes
  import opened Quorum
  import opened Voting
  import opened FinalityProof
  import opened FinalityWorker
  import opened FinalityRun

  /** Of the votes a seated worker holds for `hash` and the proof it packs of them: the verdict is acceptance
      exactly if the committee accounts the packed votes speak for reach alpha. Up to the vote count's limit
      all votes for `hash` are packed; and if none of them lost its key, their number decides. */
  ghost predicate ProvesExactly(s: Setting, w: WorkerState, hash: Digest, proof: ByteString, verdict: Verdict) {
    var committee, selected := s.committeeOf(w.height), Selected(w.height, hash, w.votes);
    var k := |committee|;
    && |proof| >= PROOF_HEADER && |proof| == PROOF_HEADER + CountIn(proof) * PROOF_VOTE
    && VotesIn(proof) == Carried(selected) && |selected| <= k
    && verdict == Weighed(committee, |Voices(Carried(selected), committee, s.delegationOf(w.height))|)
    && (k <= MAX_COUNT ==> VotesIn(proof) == selected && verdict == Weighed(committee, |VoicesOf(s, w, hash)|))
    && (Spoken(w) && k <= 93621 ==> verdict == Weighed(committee, |selected|))
  }

  lemma SelectedWithin(height: U64, hash: Digest, votes: map<ByteString, Vote>, committee: set<ByteString>)
    requires votes.Keys <= committee
    ensures |Selected(height, hash, votes)| <= |committee|
  {
    SelectedMembers(votes, height, hash, Vote(height, hash, ZERO_HASH, Zeros(64)));
    CardinalityOfSubset(votes.Keys, committee);
    assert |votes.Keys| == |votes|;
  }

  lemma SpokenProof(s: Setting, evidence: set<Vote>, w: WorkerState, voices: nat, hash: Digest)
    requires Sound(s, evidence, w, voices) && Seated(s, w) && Spoken(w) && |w.committee| <= 93621
    ensures var selected := Selected(w.height, hash, w.votes);
      |Voices(Carried(selected), w.committee, w.delegation)| >= Alpha(|w.committee|) <==> |selected| >= Alpha(|w.committee|)
  {
    SpokenVoices(s, evidence, w, voices, hash);
    HeldSpeaks(Valid(s), w.height, hash, w.votes, w.committee, w.delegation);
    SelectedWithin(w.height, hash, w.votes, w.committee);
    hide Selected, Voices, Held, Sound, Alpha;
    CarriedReachesAlpha(Selected(w.height, hash, w.votes), |w.committee|);
  }

  /** Whatever view the votes were let in under. */
  lemma VotesProveExactly(s: Setting, evidence: set<Vote>, w: WorkerState, voices: nat, hash: Digest)
    requires Sound(s, evidence, w, voices) && Seated(s, w)
    ensures var proof := ProofOf(w.height, hash, Carried(Selected(w.height, hash, w.votes)));
      ProvesExactly(s, w, hash, proof, Judge(Valid(s), hash, w.height, proof, s.committeeOf(w.height), s.delegationOf(w.height)))
  {
    var selected := Selected(w.height, hash, w.votes);
    if Spoken(w) && |w.committee| <= 93621 { SpokenProof(s, evidence, w, voices, hash); }
    ProofAcceptedExactly(Valid(s), w.height, hash, w.votes, w.committee, w.delegation);
    SelectedWithin(w.height, hash, w.votes, w.committee);
    hide ProofOf, Judge, Selected, Voices, Speaking, Alpha, CountIn, VotesIn, Spoken, Sound;
  }

  /** The prune of an epoch boundary. Of whatever votes, let in under whatever view, re-reading the epoch's
      first block keeps those of the true committee's accounts. A proof of the kept votes for a hash is
      accepted exactly if the accounts they speak for, under the delegation re-read, reach alpha. */
  lemma PruneProvesExactly(s: Setting, evidence: set<Vote>, chain: Chain, w: WorkerState, voices: nat, hash: Digest)
    requires s.build.cadence.Valid() && Coherent(s, chain) && w.height in chain.blocks && Sound(s, evidence, w, voices)
    ensures var now := Refreshed(s.build, w, chain);
      var proof := ProofOf(w.height, hash, Carried(Selected(w.height, hash, now.votes)));
      && Seated(s, now) && now.votes == Retained(w.votes, s.committeeOf(w.height))
      && ProvesExactly(s, now, hash, proof,
           Judge(Valid(s), hash, w.height, proof, s.committeeOf(w.height), s.delegationOf(w.height)))
  {
    RefreshedSound(s, evidence, chain, w, voices);
    var now := Refreshed(s.build, w, chain);
    assert now.height == w.height;
    hide Refreshed, Sound, ProvesExactly, Judge, ProofOf, Selected;
    VotesProveExactly(s, evidence, now, voices, hash);
  }

  lemma ImporterReads(s: Setting, importer: Chain, height: U32, hash: Digest, proof: ByteString)
    requires s.build.cadence.Valid() && Coherent(s, importer) && Pinned(s.build.cadence, importer, height)
    ensures Reception(s, importer, height, hash, proof)
         == Judge(Valid(s), hash, height, proof, s.committeeOf(height), s.delegationOf(height))
  {
    PinnedSeesEpoch(s, importer, height);
  }

  /** What `importer` makes of the attempt. */
  ghost predicate ConvincesExactly(s: Setting, o: Outcome, importer: Chain)
    requires s.build.cadence.Valid() && o.attempt.Some?
  {
    var a := o.attempt.value;
    && a.height == o.counted.height
    && ProvesExactly(s, o.counted, a.hash, a.proof, Reception(s, importer, a.height, a.hash, a.proof))
  }

  /** The verdict in numbers. */
  lemma VerdictReads(s: Setting, w: WorkerState, hash: Digest, proof: ByteString, verdict: Verdict)
    requires ProvesExactly(s, w, hash, proof, verdict)
    ensures var k, selected, voices := |s.committeeOf(w.height)|, Selected(w.height, hash, w.votes), VoicesOf(s, w, hash);
      && (k <= MAX_COUNT ==> (verdict == Accepted <==> |voices| >= Alpha(k)))
      && (k <= MAX_COUNT && |selected| >= Alpha(k) ==> (verdict == Rejected(InsufficientSignatures) <==> |voices| < Alpha(k)))
      && (Spoken(w) && k <= 93621 ==> (verdict == Accepted <==> |selected| >= Alpha(k)))
  {
    AlphaPositive(|s.committeeOf(w.height)|);
    hide Selected, VoicesOf, Voices, Carried, Spoken, Alpha, CountIn, VotesIn;
  }

  /** The target has no decision when the tick comes to its vote. */
  ghost predicate Undecided(b: Build, w: WorkerState, chain: Chain) requires b.cadence.Valid() {
    Prepared(b, w, chain).0.ballot.decision.None?
  }

  lemma AttemptIs(w: WorkerState)
    requires AttemptOf(w).Some?
    ensures var a := AttemptOf(w).value;
      a.height == w.height && a.proof == ProofOf(w.height, a.hash, Carried(Selected(w.height, a.hash, w.votes)))
  {}

  lemma SoundAttemptConvinces(s: Setting, evidence: set<Vote>, was: Option<Digest>, o: Outcome, before: nat, importer: Chain)
    requires s.build.cadence.Valid() && TallySound(s, evidence, was, o, before) && o.attempt.Some?
    requires Coherent(s, importer) && Pinned(s.build.cadence, importer, o.counted.height)
    ensures ConvincesExactly(s, o, importer) && (was.None? ==> HasQuorum(s, o))
  {
    hide AttemptOf, Sound, Coherent, Pinned, Seated, Reception, ProvesExactly, Selected, ProofOf, Judge, HasQuorum, VoicesThen;
    AttemptIs(o.counted);
    VotesProveExactly(s, evidence, o.counted, VoicesThen(s, was, o, before), o.attempt.value.hash);
    ImporterReads(s, importer, o.counted.height, o.attempt.value.hash, o.attempt.value.proof);
  }

  /** A tick's attempt, at any sound worker: what every node that has the epoch's first block makes of it; and
      if the tick is the one that decides, a quorum of votes is in hand. */
  lemma AttemptConvinces(
    s: Setting, evidence: set<Vote>, w: WorkerState, chain: Chain, key: Option<VoteKey>, finalizes: bool, after: Chain,
    before: nat, importer: Chain
  )
    requires s.build.cadence.Valid() && Coherent(s, chain) && Sound(s, evidence, w, before)
    requires key.Some? ==> ValidKey(s, key.value)
    requires var o := TickOf(s.build, w, chain, key, finalizes, after);
      o.attempt.Some? && Coherent(s, importer) && Pinned(s.build.cadence, importer, o.counted.height)
    ensures var o := TickOf(s.build, w, chain, key, finalizes, after);
      ConvincesExactly(s, o, importer) && (Undecided(s.build, w, chain) ==> HasQuorum(s, o))
  {
    TickSound(s, evidence, w, chain, key, finalizes, after, before);
    var o := TickOf(s.build, w, chain, key, finalizes, after);
    var all := evidence + (if o.sent.Some? then {o.sent.value} else {});
    var was := Prepared(s.build, w, chain).0.ballot.decision;
    hide TickOf, Prepared, Sound, Coherent, ValidKey, Pinned, TallySound, ConvincesExactly, HasQuorum;
    SoundAttemptConvinces(s, all, was, o, before, importer);
  }

  /** On the tick that decides, a quorum of votes is in hand, and its proof is rejected exactly if the accounts
      they speak for fall short of alpha. */
  lemma DecidingTickRejected(
    s: Setting, evidence: set<Vote>, w: WorkerState, chain: Chain, key: Option<VoteKey>, finalizes: bool, after: Chain,
    before: nat, importer: Chain
  )
    requires s.build.cadence.Valid() && Coherent(s, chain) && Sound(s, evidence, w, before)
    requires (key.Some? ==> ValidKey(s, key.value)) && Undecided(s.build, w, chain)
    requires var o := TickOf(s.build, w, chain, key, finalizes, after);
      && o.attempt.Some? && Coherent(s, importer) && Pinned(s.build.cadence, importer, o.counted.height)
      && |s.committeeOf(o.counted.height)| <= MAX_COUNT
    ensures var o := TickOf(s.build, w, chain, key, finalizes, after);
      var a, alpha := o.attempt.value, Alpha(|s.committeeOf(o.counted.height)|);
      && |Selected(o.counted.height, a.hash, o.counted.votes)| >= alpha
      && (Reception(s, importer, a.height, a.hash, a.proof) == Rejected(InsufficientSignatures)
          <==> alpha > |VoicesOf(s, o.counted, a.hash)|)
      && (Reception(s, importer, a.height, a.hash, a.proof) == Accepted <==> alpha <= |VoicesOf(s, o.counted, a.hash)|)
  {
    hide TickOf, Sound, Coherent, ValidKey, Undecided, Pinned, Reception, Selected, VoicesOf, Alpha, ProvesExactly;
    AttemptConvinces(s, evidence, w, chain, key, finalizes, after, before, importer);
    var o := TickOf(s.build, w, chain, key, finalizes, after);
    var a := o.attempt.value;
    VerdictReads(s, o.counted, a.hash, a.proof, Reception(s, importer, a.height, a.hash, a.proof));
  }

  ghost predicate Attempts(s: Setting, states: seq<System>, events: seq<Event>, i: nat)
    requires s.build.cadence.Valid() && Runs(s, states, events) && i < |events|
  {
    && events[i].Tick? && Enabled(states[i], events[i]) && OutcomeOf(s, states[i], events[i]).attempt.Some?
  }

  /** At every tick of every run that attempts to finalise, whatever became of the keys: every node that has
      the epoch's first block accepts the proof exactly if the accounts its votes speak for reach alpha. On
      the tick that decides a quorum of votes is in hand; and if the node's keys held so far, an attempt is
      accepted exactly if its votes reach alpha, so a first decision always is. */
  lemma AttemptsConvince(s: Setting, states: seq<System>, events: seq<Event>, i: nat, importer: Chain)
    requires s.build.cadence.Valid() && Runs(s, states, events) && TrustedRun(s, states, events)
    requires i < |events| && Attempts(s, states, events, i)
    requires Coherent(s, importer) && Pinned(s.build.cadence, importer, OutcomeOf(s, states[i], events[i]).counted.height)
    ensures var o := OutcomeOf(s, states[i], events[i]);
      var a, k := o.attempt.value, |s.committeeOf(o.counted.height)|;
      var verdict, selected := Reception(s, importer, a.height, a.hash, a.proof), Selected(a.height, a.hash, o.counted.votes);
      && ProvesExactly(s, o.counted, a.hash, a.proof, verdict)
      && (k <= MAX_COUNT ==> (verdict == Accepted <==> |VoicesOf(s, o.counted, a.hash)| >= Alpha(k)))
      && (Undecided(s.build, states[i].workers[events[i].node], events[i].chain) ==> |selected| >= Alpha(k))
      && (KeptKeys(s, states, events, events[i].node, i + 1) && k <= 93621 ==>
            && (verdict == Accepted <==> |selected| >= Alpha(k))
            && (Undecided(s.build, states[i].workers[events[i].node], events[i].chain) ==> verdict == Accepted))
  {
    var sys, e := states[i], events[i];
    RunKeepsInv(s, states, events, i);
    assert Moves(s, states[i], events[i], states[i + 1]) && Trusted(s, sys, e);
    assert Sound(s, sys.evidence, sys.workers[e.node], VoicesFor(sys, e.node));
    if KeptKeys(s, states, events, e.node, i + 1) { KeptSpoken(s, states, events, i); }
    hide Inv, Sound, TickOf, Coherent, Pinned, Reception, Selected, Undecided, Alpha, VoicesOf, TrustedRun, Runs, Moves, Spoken;
    hide ProvesExactly, KeptKeys;
    AttemptConvinces(s, sys.evidence, sys.workers[e.node], e.chain, e.key, e.finalizes, e.after, VoicesFor(sys, e.node), importer);
    var o := OutcomeOf(s, sys, e);
    var a := o.attempt.value;
    VerdictReads(s, o.counted, a.hash, a.proof, Reception(s, importer, a.height, a.hash, a.proof));
  }

  lemma KeptSpoken(s: Setting, states: seq<System>, events: seq<Event>, i: nat)
    requires s.build.cadence.Valid() && Runs(s, states, events) && TrustedRun(s, states, events)
    requires i < |events| && Attempts(s, states, events, i) && KeptKeys(s, states, events, events[i].node, i + 1)
    ensures Spoken(OutcomeOf(s, states[i], events[i]).counted)
  {
    var sys, e := states[i], events[i];
    RunFirm(s, states, events, e.node, i);
    assert Moves(s, states[i], events[i], states[i + 1]) && Trusted(s, sys, e) && KeepsKeys(s, sys, e, e.node);
    hide TickOf, Coherent, KeysHold, Seated, Spoken, ValidKey, QuorumAt, TrustedRun, Runs, Moves;
    if Seated(s, sys.workers[e.node]) { SeatedKeysHold(s, e.chain, sys.workers[e.node]); }
    TickSpoken(s.build, sys.workers[e.node], e.chain, e.key, e.finalizes, e.after);
  }
}
