/** Whole runs of the finality network: any number of workers, any messages, any proofs, any restarts, any
    order. A height has one committee and one delegation map, those of its epoch's first block; a node
    that has not got that block yet reads whatever its best block says. */
module FinalityRun {
  import opened Bytes
  import opened Quorum
  import opened Voting
  import opened FinalityProof
  import opened FinalityWorker

  datatype Setting = Setting(
    build: Build, committeeOf: U32 -> set<ByteString>, delegationOf: U32 -> map<ByteString, ByteString>
  )

  function Valid(s: Setting): Check { SigCheck(s.build.scheme, s.build.domain) }

  /** That a node made `hash` final at `number`, by its own tally or by a proof it accepted, on votes that
      spoke for `voices` committee accounts. */
  datatype Claim =
    | Tallied(node: nat, number: U64, hash: Digest, voices: nat)
    | Imported(node: nat, number: U64, hash: Digest, voices: nat)

  /** `voices` is what each worker's decision was made on, `evidence` every vote any node ever sent, received
      or found in a proof it accepted; `decided` is what nodes decided by their own tally, `finalised` what
      they made final either way. */
  datatype System = System(
    workers: map<nat, WorkerState>, voices: map<nat, nat>, evidence: set<Vote>, decided: set<Claim>, finalised: set<Claim>
  )

  /** `finalizes` is the answer of the client's `finalize_block`. */
  datatype Event =
    | Tick(node: nat, chain: Chain, key: Option<VoteKey>, finalizes: bool, after: Chain)
    | Receive(node: nat, message: ByteString)
    | Import(node: nat, chain: Chain, number: U64, hash: Digest, proof: ByteString, finalizes: bool)
    | Restart(node: nat, chain: Chain)

  ghost predicate Enabled(sys: System, e: Event) {
    match e
    case Tick(n, _, _, _, _) => n in sys.workers
    case Receive(n, _) => n in sys.workers
    case Import(_, _, _, _, _, _) => true
    case Restart(n, _) => n in sys.workers
  }

  /** The cast of a proof's 64-bit height to a block number. */
  function Truncated(number: U64): U32 { if number <= U32_MAX then number else number % 0x1_0000_0000 }

  /** What a node that sees `chain` makes of a proof. */
  function Reception(s: Setting, chain: Chain, number: U64, hash: Digest, proof: ByteString): Verdict
    requires s.build.cadence.Valid()
  {
    var h := Truncated(number);
    var at := PinnedAt(s.build.cadence, chain, h);
    Judge(Valid(s), hash, number, proof, CommitteeFor(s.build.cadence, chain, h, at), chain.delegationAt(at))
  }

  ghost function OutcomeOf(s: Setting, sys: System, e: Event): Outcome
    requires s.build.cadence.Valid() && Enabled(sys, e) && e.Tick?
  {
    TickOf(s.build, sys.workers[e.node], e.chain, e.key, e.finalizes, e.after)
  }

  /** The committee accounts that the votes in hand for `hash` speak for. */
  function VoicesOf(s: Setting, w: WorkerState, hash: Digest): set<ByteString> {
    Speaking(w.votes, hash, s.committeeOf(w.height), s.delegationOf(w.height))
  }

  /** What the decision held after a count was made on, if the target had decision `was` before it. */
  ghost function VoicesThen(s: Setting, was: Option<Digest>, o: Outcome, before: nat): nat {
    if o.attempt.Some? && was.None? then |VoicesOf(s, o.counted, o.attempt.value.hash)| else before
  }

  ghost function VoicesAfter(s: Setting, b: Build, w: WorkerState, chain: Chain, o: Outcome, before: nat): nat
    requires b.cadence.Valid()
  {
    VoicesThen(s, Prepared(b, w, chain).0.ballot.decision, o, before)
  }

  function VoicesFor(sys: System, n: nat): nat { if n in sys.voices then sys.voices[n] else 0 }

  ghost function Mine(n: nat, o: Outcome, voices: nat): set<Claim> {
    if o.attempt.Some? then {Tallied(n, o.attempt.value.height, o.attempt.value.hash, voices)} else {}
  }

  ghost function ProofVoices(s: Setting, number: U64, proof: ByteString): nat
    requires |proof| >= PROOF_HEADER && |proof| >= PROOF_HEADER + CountIn(proof) * PROOF_VOTE
  {
    |Endorsers(Valid(s), VotesIn(proof), s.committeeOf(Truncated(number)), s.delegationOf(Truncated(number)))|
  }

  ghost function Step(s: Setting, sys: System, e: Event): System
    requires s.build.cadence.Valid() && Enabled(sys, e)
  {
    match e
    case Tick(n, chain, _, finalizes, _) =>
      var o := OutcomeOf(s, sys, e);
      var voices := VoicesAfter(s, s.build, sys.workers[n], chain, o, VoicesFor(sys, n));
      System(sys.workers[n := o.next], sys.voices[n := voices],
             sys.evidence + (if o.sent.Some? then {o.sent.value} else {}),
             sys.decided + Mine(n, o, voices),
             sys.finalised + if finalizes then Mine(n, o, voices) else {})
    case Receive(n, message) =>
      sys.(workers := sys.workers[n := ReceiveOf(s.build, sys.workers[n], message)],
           evidence := sys.evidence + if DecodeVote(message).Some? then {DecodeVote(message).value} else {})
    case Import(n, chain, number, hash, proof, finalizes) =>
      if Reception(s, chain, number, hash, proof) == Accepted
      then sys.(evidence := sys.evidence + (set v | v in VotesIn(proof)),
                finalised := sys.finalised + if finalizes then {Imported(n, number, hash, ProofVoices(s, number, proof))} else {})
      else sys
    case Restart(n, chain) =>
      sys.(workers := sys.workers[n := Booted(s.build, chain)])
  }

  // ---------------------------------------------------------------- what safety rests on

  /** What a node reads at an epoch's first block is what everybody reads there, and a node that has a
      block has the first block of its epoch. Nothing is said of heights whose epoch has not begun. */
  ghost predicate Coherent(s: Setting, chain: Chain) requires s.build.cadence.Valid() {
    && (forall h: U32 :: ReadsAt(s, chain, h))
    && (forall h: U32 | h in chain.blocks :: FirstOf(s, h) in chain.blocks)
  }

  /** The number of the first block of the height's epoch. */
  function FirstOf(s: Setting, h: U32): int requires s.build.cadence.Valid() { h - h % s.build.cadence.epochLength }

  ghost predicate ReadsAt(s: Setting, chain: Chain, h: U32) requires s.build.cadence.Valid() {
    FirstOf(s, h) in chain.blocks ==>
      var at := chain.blocks[FirstOf(s, h)];
      chain.committeeAt(h / s.build.cadence.epochLength, at) == s.committeeOf(h) && chain.delegationAt(at) == s.delegationOf(h)
  }

  ghost predicate SeesEpoch(s: Setting, chain: Chain, h: U32) requires s.build.cadence.Valid() {
    var at := PinnedAt(s.build.cadence, chain, h);
    CommitteeFor(s.build.cadence, chain, h, at) == s.committeeOf(h) && chain.delegationAt(at) == s.delegationOf(h)
  }

  /** What the worker reads at the block it pins is what it should read. */
  lemma PinnedSeesEpoch(s: Setting, chain: Chain, h: U32)
    requires s.build.cadence.Valid() && Coherent(s, chain)
    ensures Pinned(s.build.cadence, chain, h) ==> SeesEpoch(s, chain, h)
    ensures h in chain.blocks ==> Pinned(s.build.cadence, chain, h)
  {
    var length := s.build.cadence.epochLength;
    assert h == h / length * length + h % length;
    assert EpochStart(s.build.cadence, h) == FirstOf(s, h);
    assert ReadsAt(s, chain, h);
  }

  /** The worker's view of its height is the one of the epoch's first block. */
  ghost predicate Seated(s: Setting, w: WorkerState) {
    w.committee == s.committeeOf(w.height) && w.delegation == s.delegationOf(w.height)
  }

  /** The votes that stay seated when the tick re-reads the committee still speak for their accounts
      under the delegation it re-reads. */
  ghost predicate KeysHold(b: Build, w: WorkerState, chain: Chain) requires b.cadence.Valid() {
    var aimed := Aimed(b, w, chain);
    var now := Refreshed(b, aimed, chain);
    TargetHash(chain, aimed.height).1 ==> forall a | a in now.votes :: ResolveVoter(now.votes[a].signer, now.delegation) == a
  }

  /** Signing and verifying with one key pair agree. */
  ghost predicate ValidKey(s: Setting, k: VoteKey) {
    forall m: ByteString :: s.build.scheme(k.sign(m), m, k.signer)
  }

  /** A client finalises only a block it has. */
  ghost predicate Trusted(s: Setting, sys: System, e: Event) requires s.build.cadence.Valid() && Enabled(sys, e) {
    match e
    case Tick(_, chain, key, _, _) => Coherent(s, chain) && (key.Some? ==> ValidKey(s, key.value))
    case Receive(_, _) => true
    case Import(_, chain, number, _, _, finalizes) =>
      finalizes ==> Coherent(s, chain) && Pinned(s.build.cadence, chain, Truncated(number))
    case Restart(_, _) => true
  }

  /** The accounts of the height's committee shown, by some vote in `evidence`, to have signed `hash`. */
  ghost function Backers(s: Setting, evidence: set<Vote>, number: U64, hash: Digest): set<ByteString> {
    set v | v in evidence && v.height == number && v.hash == hash && Valid(s)(v)
         && ResolveVoter(v.signer, s.delegationOf(Truncated(number))) in s.committeeOf(Truncated(number))
      :: ResolveVoter(v.signer, s.delegationOf(Truncated(number)))
  }

  /** A quorum of the committee of `number`. */
  function QuorumAt(s: Setting, number: U64): nat { Alpha(|s.committeeOf(Truncated(number))|) }

  lemma BackersGrow(s: Setting, small: set<Vote>, large: set<Vote>, number: U64, hash: Digest)
    requires small <= large
    ensures |Backers(s, small, number, hash)| <= |Backers(s, large, number, hash)|
  {
    CardinalityOfSubset(Backers(s, small, number, hash), Backers(s, large, number, hash));
  }

  // ---------------------------------------------------------------- what a worker keeps

  /** Whatever view they were let in under and whatever became of their keys: held votes are valid, for this
      height, one per account seated in the worker's view, and a decision has its voices behind it. */
  ghost predicate Sound(s: Setting, evidence: set<Vote>, w: WorkerState, voices: nat) {
    && Authentic(Valid(s), w.height, w.votes) && w.votes.Keys <= w.committee
    && (forall a | a in w.votes :: w.votes[a] in evidence)
    && (w.ballot.decision.Some? ==> |Backers(s, evidence, w.height, w.ballot.decision.value)| >= voices)
  }

  lemma SoundGrows(s: Setting, small: set<Vote>, large: set<Vote>, w: WorkerState, voices: nat)
    requires small <= large && Sound(s, small, w, voices)
    ensures Sound(s, large, w, voices)
  {
    if w.ballot.decision.Some? { BackersGrow(s, small, large, w.height, w.ballot.decision.value); }
  }

  lemma RetargetSound(s: Setting, evidence: set<Vote>, chain: Chain, w: WorkerState, height: U32, voices: nat)
    requires s.build.cadence.Valid()
    ensures Sound(s, evidence, Retarget(s.build, chain, w, height), voices)
    ensures Coherent(s, chain) && height in chain.blocks ==> Seated(s, Retarget(s.build, chain, w, height))
  {
    if Coherent(s, chain) && height in chain.blocks { PinnedSeesEpoch(s, chain, height); }
  }

  /** Re-reading the epoch's first block seats the true committee, and leaves of the votes those of its members. */
  lemma RefreshedSound(s: Setting, evidence: set<Vote>, chain: Chain, w: WorkerState, voices: nat)
    requires s.build.cadence.Valid() && Coherent(s, chain) && w.height in chain.blocks && Sound(s, evidence, w, voices)
    ensures Sound(s, evidence, Refreshed(s.build, w, chain), voices) && Seated(s, Refreshed(s.build, w, chain))
    ensures Refreshed(s.build, w, chain).votes == Retained(w.votes, s.committeeOf(w.height))
  {
    PinnedSeesEpoch(s, chain, w.height);
    hide PinnedAt, Coherent, Backers, CommitteeFor, Authentic;
    PruneKeeps(Valid(s), w.height, w.votes, s.committeeOf(w.height));
  }

  lemma PruneKeeps(valid: Check, height: U64, votes: map<ByteString, Vote>, committee: set<ByteString>)
    requires Authentic(valid, height, votes)
    ensures Authentic(valid, height, Retained(votes, committee)) && Retained(votes, committee).Keys <= committee
  {}

  lemma KeepVoteSound(s: Setting, evidence: set<Vote>, w: WorkerState, v: Vote, voices: nat)
    requires Sound(s, evidence, w, voices) && v in evidence
    requires v.height == w.height && Valid(s)(v)
    ensures Sound(s, evidence, KeepVote(w, v), voices)
  {
    hide Backers;
  }

  /** The accounts held votes speak for have signed. */
  lemma VoicesAreBackers(s: Setting, evidence: set<Vote>, w: WorkerState, voices: nat, hash: Digest)
    requires Sound(s, evidence, w, voices)
    ensures |VoicesOf(s, w, hash)| <= |Backers(s, evidence, w.height, hash)|
  {
    forall a | a in VoicesOf(s, w, hash) ensures a in Backers(s, evidence, w.height, hash) {
      var held :| held in w.votes && w.votes[held].hash == hash && ResolveVoter(w.votes[held].signer, s.delegationOf(w.height)) == a;
      assert w.votes[held] in evidence;
    }
    CardinalityOfSubset(VoicesOf(s, w, hash), Backers(s, evidence, w.height, hash));
  }

  /** Counting keeps a decision, and makes one only of at least `alpha` votes in hand. */
  lemma CountedKeeps(s: Setting, w: WorkerState)
    requires forall a | a in w.votes :: w.votes[a].height == w.height
    ensures var c := Counted(s.build, w);
      && c.height == w.height && c.votes == w.votes && c.committee == w.committee && c.delegation == w.delegation
      && (w.ballot.decision.Some? ==> c.ballot == w.ballot)
      && (w.ballot.decision.None? && c.ballot.decision.Some?
          ==> |Selected(w.height, c.ballot.decision.value, w.votes)| >= Alpha(|w.committee|))
  {
    var c := Counted(s.build, w);
    if w.ballot.decision.None? && c.ballot.decision.Some? {
      MatchingCounts(Ascending(w.votes.Keys), w.votes, w.height, c.ballot.decision.value);
    }
  }

  /** What a tick that came to count leaves behind: sound states, the true committee, and on a first decision
      a quorum of votes in hand. */
  ghost predicate TallySound(s: Setting, evidence: set<Vote>, was: Option<Digest>, o: Outcome, before: nat) {
    && Seated(s, o.counted) && o.counted.committee != {} && o.attempt == AttemptOf(o.counted)
    && (o.attempt.Some? && was.None? ==> HasQuorum(s, o))
    && Sound(s, evidence, o.counted, VoicesThen(s, was, o, before)) && Sound(s, evidence, o.next, VoicesThen(s, was, o, before))
  }

  ghost predicate HasQuorum(s: Setting, o: Outcome) requires o.attempt.Some? {
    |Selected(o.counted.height, o.attempt.value.hash, o.counted.votes)| >= Alpha(|s.committeeOf(o.counted.height)|)
  }

  lemma CountedSound(s: Setting, evidence: set<Vote>, w: WorkerState, before: nat)
    requires Sound(s, evidence, w, before) && Seated(s, w)
    ensures var c := Counted(s.build, w);
      && Seated(s, c)
      && (w.ballot.decision.Some? || c.ballot.decision.None? ==> Sound(s, evidence, c, before))
      && (w.ballot.decision.None? && c.ballot.decision.Some? ==>
            && Sound(s, evidence, c, |VoicesOf(s, c, c.ballot.decision.value)|)
            && |Selected(c.height, c.ballot.decision.value, c.votes)| >= Alpha(|s.committeeOf(c.height)|))
  {
    var c := Counted(s.build, w);
    CountedKeeps(s, w);
    hide Counted, Backers, Selected, Alpha;
    if w.ballot.decision.None? && c.ballot.decision.Some? {
      VoicesAreBackers(s, evidence, w, before, c.ballot.decision.value);
    }
  }

  lemma VoteAndCountSound(
    s: Setting, evidence: set<Vote>, w: WorkerState, key: Option<VoteKey>, pref: Digest, finalizes: bool, after: Chain, before: nat
  )
    requires s.build.cadence.Valid() && Sound(s, evidence, w, before) && Seated(s, w) && w.committee != {}
    requires key.Some? ==> ValidKey(s, key.value) && OwnVote(s.build, w, key.value, pref) in evidence
    ensures TallySound(s, evidence, w.ballot.decision, VoteAndCount(s.build, w, key, pref, finalizes, after), before)
  {
    var kept := w;
    if key.Some? {
      var v := OwnVote(s.build, w, key.value, pref);
      KeepVoteSound(s, evidence, w, v, before);
      kept := KeepVote(w, v);
    }
    CountedSound(s, evidence, kept, before);
    CountedKeeps(s, kept);
    hide Sound, Counted, Selected, ValidKey, Alpha;
    var o := VoteAndCount(s.build, w, key, pref, finalizes, after);
    RetargetSound(s, evidence, after, o.counted, Aim(s.build.cadence, after.finalized), VoicesThen(s, w.ballot.decision, o, before));
  }

  lemma SkipSound(s: Setting, evidence: set<Vote>, w: WorkerState, chain: Chain, voices: nat)
    requires s.build.cadence.Valid() && Coherent(s, chain) && Sound(s, evidence, w, voices)
    ensures var p := SkipOf(s.build, w, chain);
      Sound(s, evidence, p.0, voices) && (p.1.Some? ==> Seated(s, p.0) && p.0.committee != {})
  {
    hide Sound, Coherent, FirstHealthy, PinnedAt;
    var target := FirstHealthy(s.build.cadence, chain, w.height + s.build.cadence.step);
    if target.Some? { RetargetSound(s, evidence, chain, w, target.value, voices); }
  }

  /** A tick that reaches its vote sees the committee of the height it votes on. */
  lemma PreparedSound(s: Setting, evidence: set<Vote>, w: WorkerState, chain: Chain, voices: nat)
    requires s.build.cadence.Valid() && Coherent(s, chain) && Sound(s, evidence, w, voices)
    ensures var p := Prepared(s.build, w, chain);
      Sound(s, evidence, p.0, voices) && (p.1.Some? ==> Seated(s, p.0) && p.0.committee != {})
  {
    hide SkipOf, Coherent, PinnedAt, Backers, Authentic;
    RetargetSound(s, evidence, chain, w, Aim(s.build.cadence, chain.finalized), voices);
    var w1 := Aimed(s.build, w, chain);
    if TargetHash(chain, w1.height).1 {
      RefreshedSound(s, evidence, chain, w1, voices);
      SkipSound(s, evidence, Refreshed(s.build, w1, chain), chain, voices);
    }
  }

  /** What a tick leaves behind. */
  ghost predicate OutcomeSound(s: Setting, evidence: set<Vote>, was: Option<Digest>, o: Outcome, before: nat) {
    && Sound(s, evidence, o.counted, VoicesThen(s, was, o, before)) && Sound(s, evidence, o.next, VoicesThen(s, was, o, before))
    && (o.attempt.Some? ==> TallySound(s, evidence, was, o, before))
  }

  lemma IdleSound(s: Setting, evidence: set<Vote>, w: WorkerState, was: Option<Digest>, before: nat)
    requires Sound(s, evidence, w, before)
    ensures OutcomeSound(s, evidence, was, Idle(w), before)
  {
    hide Sound;
  }

  lemma TallyIsSound(s: Setting, evidence: set<Vote>, was: Option<Digest>, o: Outcome, before: nat)
    requires TallySound(s, evidence, was, o, before)
    ensures OutcomeSound(s, evidence, was, o, before)
  {
    hide Sound, Seated, HasQuorum, VoicesThen;
  }

  /** A tick, with whatever votes are in hand. */
  lemma TickSound(
    s: Setting, evidence: set<Vote>, w: WorkerState, chain: Chain, key: Option<VoteKey>, finalizes: bool, after: Chain, before: nat
  )
    requires s.build.cadence.Valid() && Coherent(s, chain)
    requires Sound(s, evidence, w, before) && (key.Some? ==> ValidKey(s, key.value))
    ensures var o := TickOf(s.build, w, chain, key, finalizes, after);
      var all := evidence + (if o.sent.Some? then {o.sent.value} else {});
      OutcomeSound(s, all, Prepared(s.build, w, chain).0.ballot.decision, o, before)
  {
    hide Sound, Seated, Coherent, ValidKey, Prepared, TallySound, OutcomeSound;
    var o := TickOf(s.build, w, chain, key, finalizes, after);
    var all := evidence + (if o.sent.Some? then {o.sent.value} else {});
    var p := Prepared(s.build, w, chain);
    var was := p.0.ballot.decision;
    SoundGrows(s, evidence, all, w, before);
    PreparedSound(s, all, w, chain, before);
    if p.1.Some? {
      VoteAndCountSound(s, all, p.0, key, p.1.value, finalizes, after, before);
      TallyIsSound(s, all, was, o, before);
    } else {
      IdleSound(s, all, p.0, was, before);
    }
  }

  // ---------------------------------------------------------------- the run

  ghost predicate Started(sys: System) {
    && sys.evidence == {} && sys.voices == map[] && sys.decided == {} && sys.finalised == {}
    && forall n | n in sys.workers :: sys.workers[n].votes == map[] && sys.workers[n].ballot.decision.None?
  }

  ghost predicate Moves(s: Setting, a: System, e: Event, b: System) requires s.build.cadence.Valid() {
    Enabled(a, e) && b == Step(s, a, e)
  }

  /** A finite run: the states it passes through and the events between them. */
  ghost predicate Runs(s: Setting, states: seq<System>, events: seq<Event>)
    requires s.build.cadence.Valid()
  {
    && |states| == |events| + 1 && Started(states[0])
    && forall i | 0 <= i < |events| :: Moves(s, states[i], events[i], states[i + 1])
  }

  ghost predicate TrustedRun(s: Setting, states: seq<System>, events: seq<Event>)
    requires s.build.cadence.Valid() && Runs(s, states, events)
  {
    forall i | 0 <= i < |events| :: Moves(s, states[i], events[i], states[i + 1]) && Trusted(s, states[i], events[i])
  }

  /** The voices of a claim have signed, and those of a proof are a quorum. */
  ghost predicate Backed(s: Setting, evidence: set<Vote>, c: Claim) {
    && |Backers(s, evidence, c.number, c.hash)| >= c.voices
    && (c.Imported? ==> c.voices >= QuorumAt(s, c.number))
  }

  ghost predicate Inv(s: Setting, sys: System) {
    && (forall n | n in sys.workers :: Sound(s, sys.evidence, sys.workers[n], VoicesFor(sys, n)))
    && (forall c | c in sys.decided + sys.finalised :: Backed(s, sys.evidence, c))
  }

  lemma InvGrows(s: Setting, sys: System, large: set<Vote>)
    requires Inv(s, sys) && sys.evidence <= large
    ensures Inv(s, sys.(evidence := large))
  {
    hide Sound, Backers;
    forall n | n in sys.workers ensures Sound(s, large, sys.workers[n], VoicesFor(sys, n)) {
      SoundGrows(s, sys.evidence, large, sys.workers[n], VoicesFor(sys, n));
    }
    forall c | c in sys.decided + sys.finalised ensures Backed(s, large, c) {
      BackersGrow(s, sys.evidence, large, c.number, c.hash);
    }
  }

  lemma AttemptIsBacked(s: Setting, evidence: set<Vote>, n: nat, o: Outcome, voices: nat)
    requires o.attempt.Some? && o.attempt == AttemptOf(o.counted) && Sound(s, evidence, o.counted, voices)
    ensures forall c | c in Mine(n, o, voices) :: Backed(s, evidence, c)
  {
    hide Backers, Authentic;
  }

  lemma TickEstablishes(s: Setting, sys: System, n: nat, o: Outcome, finalizes: bool, voices: nat, after: System)
    requires Inv(s, sys.(evidence := after.evidence)) && Sound(s, after.evidence, o.next, voices)
    requires forall c | c in Mine(n, o, voices) :: Backed(s, after.evidence, c)
    requires after.workers == sys.workers[n := o.next] && after.voices == sys.voices[n := voices]
    requires after.decided == sys.decided + Mine(n, o, voices)
    requires after.finalised == sys.finalised + if finalizes then Mine(n, o, voices) else {}
    ensures Inv(s, after)
  {
    hide Sound, Backed, Mine;
  }

  lemma TickKeepsInv(s: Setting, sys: System, e: Event)
    requires s.build.cadence.Valid() && Inv(s, sys) && Enabled(sys, e) && Trusted(s, sys, e) && e.Tick?
    ensures Inv(s, Step(s, sys, e))
  {
    hide TickOf, Sound, Coherent, ValidKey, Backed, Seated, HasQuorum, VoicesThen, Prepared;
    var after := Step(s, sys, e);
    var w, o := sys.workers[e.node], OutcomeOf(s, sys, e);
    var voices := VoicesAfter(s, s.build, w, e.chain, o, VoicesFor(sys, e.node));
    TickSound(s, sys.evidence, w, e.chain, e.key, e.finalizes, e.after, VoicesFor(sys, e.node));
    InvGrows(s, sys, after.evidence);
    hide Inv, Trusted, Enabled;
    if o.attempt.Some? { AttemptIsBacked(s, after.evidence, e.node, o, voices); }
    TickEstablishes(s, sys, e.node, o, e.finalizes, voices, after);
  }

  lemma ReceiveKeepsInv(s: Setting, sys: System, e: Event)
    requires s.build.cadence.Valid() && Inv(s, sys) && Enabled(sys, e) && e.Receive?
    ensures Inv(s, Step(s, sys, e))
  {
    var after := Step(s, sys, e);
    InvGrows(s, sys, after.evidence);
    var w, v := sys.workers[e.node], DecodeVote(e.message);
    if v.Some? && Countable(s.build, w, v.value) {
      KeepVoteSound(s, after.evidence, w, v.value, VoicesFor(sys, e.node));
    }
    hide Sound, Backed, DecodeVote;
  }

  lemma ClaimKeepsInv(s: Setting, sys: System, c: Claim)
    requires Inv(s, sys) && Backed(s, sys.evidence, c)
    ensures Inv(s, sys.(finalised := sys.finalised + {c}))
  {
    hide Sound, Backed;
  }

  lemma ImportKeepsInv(s: Setting, sys: System, e: Event)
    requires s.build.cadence.Valid() && Inv(s, sys) && Enabled(sys, e) && Trusted(s, sys, e) && e.Import?
    ensures Inv(s, Step(s, sys, e))
  {
    if Reception(s, e.chain, e.number, e.hash, e.proof) != Accepted {
      assert Step(s, sys, e) == sys;
      return;
    }
    ReceptionReads(s, e.chain, e.number, e.hash, e.proof);
    hide Inv, Backed, Reception, Coherent, Pinned, VotesIn;
    var heard := sys.(evidence := sys.evidence + set v | v in VotesIn(e.proof));
    InvGrows(s, sys, heard.evidence);
    if e.finalizes {
      var c := Imported(e.node, e.number, e.hash, ProofVoices(s, e.number, e.proof));
      ImportIsBacked(s, heard.evidence, e.chain, e.node, e.number, e.hash, e.proof);
      ClaimKeepsInv(s, heard, c);
      assert Step(s, sys, e) == heard.(finalised := heard.finalised + {c});
    } else {
      assert Step(s, sys, e) == heard;
    }
  }

  lemma ReceptionReads(s: Setting, chain: Chain, number: U64, hash: Digest, proof: ByteString)
    requires s.build.cadence.Valid() && Reception(s, chain, number, hash, proof) == Accepted
    ensures |proof| >= PROOF_HEADER && |proof| == PROOF_HEADER + CountIn(proof) * PROOF_VOTE
  {}

  lemma StepKeepsInv(s: Setting, sys: System, e: Event)
    requires s.build.cadence.Valid() && Inv(s, sys) && Enabled(sys, e) && Trusted(s, sys, e)
    ensures Inv(s, Step(s, sys, e))
  {
    match e
    case Tick(_, _, _, _, _) => TickKeepsInv(s, sys, e);
    case Receive(_, _) => ReceiveKeepsInv(s, sys, e);
    case Import(_, _, _, _, _, _) => ImportKeepsInv(s, sys, e);
    case Restart(n, chain) =>
      RetargetSound(s, sys.evidence, chain, Booted(s.build, chain), Aim(s.build.cadence, chain.finalized), VoicesFor(sys, n));
  }

  /** A proof accepted by a node that has the epoch's first block carries a quorum of signatures. */
  lemma ImportIsBacked(s: Setting, evidence: set<Vote>, chain: Chain, n: nat, number: U64, hash: Digest, proof: ByteString)
    requires s.build.cadence.Valid() && Coherent(s, chain) && Pinned(s.build.cadence, chain, Truncated(number))
    requires Reception(s, chain, number, hash, proof) == Accepted && forall v | v in VotesIn(proof) :: v in evidence
    ensures Backed(s, evidence, Imported(n, number, hash, ProofVoices(s, number, proof)))
    ensures |Backers(s, evidence, number, hash)| >= QuorumAt(s, number)
  {
    var h := Truncated(number);
    PinnedSeesEpoch(s, chain, h);
    hide Judge, Coherent, Pinned, PinnedAt, VotesIn, Truncated, Backers, Endorsers;
    AcceptedMeans(Valid(s), hash, number, proof, s.committeeOf(h), s.delegationOf(h));
    EndorsersAreBackers(s, evidence, VotesIn(proof), number, hash);
  }

  lemma EndorsersAreBackers(s: Setting, evidence: set<Vote>, vs: seq<Vote>, number: U64, hash: Digest)
    requires forall v | v in vs :: v in evidence && v.height == number && v.hash == hash
    ensures var at := Truncated(number);
      |Endorsers(Valid(s), vs, s.committeeOf(at), s.delegationOf(at))| <= |Backers(s, evidence, number, hash)|
  {
    var at := Truncated(number);
    var endorsers := Endorsers(Valid(s), vs, s.committeeOf(at), s.delegationOf(at));
    assert endorsers <= Backers(s, evidence, number, hash);
    CardinalityOfSubset(endorsers, Backers(s, evidence, number, hash));
  }

  lemma {:induction false} RunKeepsInv(s: Setting, states: seq<System>, events: seq<Event>, i: nat)
    requires s.build.cadence.Valid() && Runs(s, states, events) && TrustedRun(s, states, events) && i < |states|
    ensures Inv(s, states[i])
  {
    if i > 0 {
      RunKeepsInv(s, states, events, i - 1);
      assert Moves(s, states[i - 1], events[i - 1], states[i]);
      StepKeepsInv(s, states[i - 1], events[i - 1]);
    }
  }

  // ---------------------------------------------------------------- workers whose keys hold

  /** Every held vote speaks for the account it is held under. */
  ghost predicate Spoken(w: WorkerState) {
    forall a | a in w.votes :: ResolveVoter(w.votes[a].signer, w.delegation) == a
  }

  /** Only votes let in before the epoch's first block arrived can change hands. */
  lemma SeatedKeysHold(s: Setting, chain: Chain, w: WorkerState)
    requires s.build.cadence.Valid() && Coherent(s, chain) && Spoken(w) && Seated(s, w)
    ensures KeysHold(s.build, w, chain)
  {
    var aimed := Aimed(s.build, w, chain);
    if TargetHash(chain, aimed.height).1 { PinnedSeesEpoch(s, chain, aimed.height); }
  }

  lemma SpokenVoices(s: Setting, evidence: set<Vote>, w: WorkerState, voices: nat, hash: Digest)
    requires Sound(s, evidence, w, voices) && Spoken(w) && Seated(s, w)
    ensures Held(Valid(s), w.height, w.committee, w.delegation, w.votes)
    ensures |VoicesOf(s, w, hash)| == |Selected(w.height, hash, w.votes)|
  {
    assert Held(Valid(s), w.height, w.committee, w.delegation, w.votes);
    HeldSpeaks(Valid(s), w.height, hash, w.votes, w.committee, w.delegation);
  }

  lemma PreparedSpoken(b: Build, w: WorkerState, chain: Chain)
    requires b.cadence.Valid() && Spoken(w) && KeysHold(b, w, chain)
    ensures Spoken(Prepared(b, w, chain).0)
  {
    hide FirstHealthy, PinnedAt;
  }

  lemma KeepVoteSpoken(w: WorkerState, v: Vote)
    requires Spoken(w)
    ensures Spoken(KeepVote(w, v))
  {}

  lemma VoteAndCountSpoken(b: Build, w: WorkerState, key: Option<VoteKey>, pref: Digest, finalizes: bool, after: Chain)
    requires b.cadence.Valid() && Spoken(w)
    ensures var o := VoteAndCount(b, w, key, pref, finalizes, after); Spoken(o.counted) && Spoken(o.next)
  {
    if key.Some? { KeepVoteSpoken(w, OwnVote(b, w, key.value, pref)); }
    hide KeepVote, OwnVote, PinnedAt, LeadingOf, Advance, Tally, Selected, ProofOf;
  }

  lemma TickSpoken(b: Build, w: WorkerState, chain: Chain, key: Option<VoteKey>, finalizes: bool, after: Chain)
    requires b.cadence.Valid() && Spoken(w) && KeysHold(b, w, chain)
    ensures var o := TickOf(b, w, chain, key, finalizes, after); Spoken(o.counted) && Spoken(o.next)
  {
    hide Prepared, KeysHold, VoteAndCount, Spoken;
    PreparedSpoken(b, w, chain);
    var p := Prepared(b, w, chain);
    if p.1.Some? { VoteAndCountSpoken(b, p.0, key, p.1.value, finalizes, after); }
  }

  /** On this node, no key is withdrawn under a vote let in before the epoch's first block arrived. */
  ghost predicate KeepsKeys(s: Setting, sys: System, e: Event, n: nat) requires s.build.cadence.Valid() && Enabled(sys, e) {
    e.Tick? && e.node == n ==> Seated(s, sys.workers[n]) || KeysHold(s.build, sys.workers[n], e.chain)
  }

  /** Then what the node decides, it decides on a quorum of voices. */
  ghost predicate Firm(s: Setting, sys: System, n: nat) {
    && (n in sys.workers ==>
          && Spoken(sys.workers[n])
          && (sys.workers[n].ballot.decision.Some? ==> VoicesFor(sys, n) >= QuorumAt(s, sys.workers[n].height)))
    && (forall c | c in sys.decided + sys.finalised && c.Tallied? && c.node == n :: c.voices >= QuorumAt(s, c.number))
  }

  /** With keys that hold a first decision has a quorum of voices. */
  lemma SpokenDecision(s: Setting, evidence: set<Vote>, was: Option<Digest>, o: Outcome, before: nat)
    requires OutcomeSound(s, evidence, was, o, before) && Spoken(o.counted) && o.attempt.Some? && was.None?
    ensures VoicesThen(s, was, o, before) >= QuorumAt(s, o.counted.height)
  {
    SpokenVoices(s, evidence, o.counted, VoicesThen(s, was, o, before), o.attempt.value.hash);
    hide Sound, Seated, Selected, VoicesOf, Alpha, Spoken, Held;
  }

  /** A tick of a node whose keys hold. */
  lemma TickVoices(
    s: Setting, evidence: set<Vote>, w: WorkerState, chain: Chain, key: Option<VoteKey>, finalizes: bool, after: Chain, before: nat
  )
    requires s.build.cadence.Valid() && Coherent(s, chain) && Spoken(w) && (Seated(s, w) || KeysHold(s.build, w, chain))
    requires Sound(s, evidence, w, before) && (key.Some? ==> ValidKey(s, key.value))
    requires w.ballot.decision.Some? ==> before >= QuorumAt(s, w.height)
    ensures var o := TickOf(s.build, w, chain, key, finalizes, after);
      && Spoken(o.counted) && Spoken(o.next)
      && (o.attempt.Some? || o.next.ballot.decision.Some? ==>
            VoicesAfter(s, s.build, w, chain, o, before) >= QuorumAt(s, o.counted.height))
  {
    hide TickOf, Sound, Coherent, ValidKey, Prepared, KeysHold, Spoken, Seated, QuorumAt, OutcomeSound, VoicesThen;
    if Seated(s, w) { SeatedKeysHold(s, chain, w); }
    TickSpoken(s.build, w, chain, key, finalizes, after);
    TickSound(s, evidence, w, chain, key, finalizes, after, before);
    DecisionKept(s.build, w, chain, key, finalizes, after);
    var o := TickOf(s.build, w, chain, key, finalizes, after);
    var was := Prepared(s.build, w, chain).0.ballot.decision;
    if o.attempt.Some? && was.None? {
      SpokenDecision(s, evidence + (if o.sent.Some? then {o.sent.value} else {}), was, o, before);
    } else {
      VoicesStay(s, was, o, before);
    }
  }

  lemma VoicesStay(s: Setting, was: Option<Digest>, o: Outcome, before: nat)
    requires o.attempt.None? || was.Some?
    ensures VoicesThen(s, was, o, before) == before
  {}

  lemma TickFirm(s: Setting, sys: System, e: Event, n: nat)
    requires s.build.cadence.Valid() && Inv(s, sys) && Enabled(sys, e) && Trusted(s, sys, e) && e.Tick? && e.node == n
    requires KeepsKeys(s, sys, e, n) && Firm(s, sys, n)
    ensures Firm(s, Step(s, sys, e), n)
  {
    hide TickOf, Sound, Coherent, ValidKey, KeysHold, Seated, Spoken, VoicesAfter, Backed, QuorumAt, Prepared;
    var w, o := sys.workers[n], OutcomeOf(s, sys, e);
    var voices := VoicesAfter(s, s.build, w, e.chain, o, VoicesFor(sys, n));
    TickVoices(s, sys.evidence, w, e.chain, e.key, e.finalizes, e.after, VoicesFor(sys, n));
    DecisionKept(s.build, w, e.chain, e.key, e.finalizes, e.after);
    hide Inv, Trusted, KeepsKeys;
    MineFirm(s, sys, n, o, voices, Step(s, sys, e));
  }

  lemma MineFirm(s: Setting, sys: System, n: nat, o: Outcome, voices: nat, after: System)
    requires Firm(s, sys, n) && Spoken(o.next) && n in sys.workers
    requires o.attempt.Some? ==> o.attempt.value.height == o.counted.height && voices >= QuorumAt(s, o.counted.height)
    requires o.next.ballot.decision.Some? ==> o.next == o.counted && voices >= QuorumAt(s, o.counted.height)
    requires after.workers == sys.workers[n := o.next] && after.voices == sys.voices[n := voices]
    requires after.decided == sys.decided + Mine(n, o, voices) && after.finalised <= sys.finalised + Mine(n, o, voices)
    ensures Firm(s, after, n)
  {
    hide Spoken, QuorumAt;
  }

  lemma PreparedKeeps(b: Build, w: WorkerState, chain: Chain)
    requires b.cadence.Valid()
    ensures var p := Prepared(b, w, chain).0; p.ballot.decision.Some? ==> p.ballot == w.ballot && p.height == w.height
  {
    hide FirstHealthy, PinnedAt, CommitteeFor;
  }

  lemma CountKeeps(b: Build, w: WorkerState, key: Option<VoteKey>, pref: Digest, finalizes: bool, after: Chain)
    requires b.cadence.Valid()
    ensures var o := VoteAndCount(b, w, key, pref, finalizes, after);
      && o.counted.height == w.height && (o.counted.ballot.decision.Some? <==> o.attempt.Some?)
      && (o.attempt.Some? ==> o.attempt.value.height == w.height && o.counted.ballot.decision == Some(o.attempt.value.hash))
      && (o.next.ballot.decision.Some? ==> o.next == o.counted)
      && (w.ballot.decision.Some? ==> o.counted.ballot == w.ballot)
  {
    hide LeadingOf, PinnedAt, OwnVote, Selected, ProofOf;
  }

  /** A decision after a tick is one of this tick, or the one held before it at the same height. */
  lemma DecisionKept(b: Build, w: WorkerState, chain: Chain, key: Option<VoteKey>, finalizes: bool, after: Chain)
    requires b.cadence.Valid()
    ensures var o, p := TickOf(b, w, chain, key, finalizes, after), Prepared(b, w, chain).0;
      && (p.ballot.decision.Some? ==> p.ballot == w.ballot && p.height == w.height)
      && o.counted.height == p.height
      && (o.attempt.Some? ==> o.attempt.value.height == o.counted.height && o.counted.ballot.decision == Some(o.attempt.value.hash))
      && (o.next.ballot.decision.Some? ==> o.next == o.counted)
      && (o.counted.ballot.decision.Some? && o.attempt.None? ==> p.ballot.decision.Some?)
  {
    var p := Prepared(b, w, chain);
    PreparedKeeps(b, w, chain);
    if p.1.Some? { CountKeeps(b, p.0, key, p.1.value, finalizes, after); }
    hide Prepared, VoteAndCount;
  }

  /** What leaves the node's claims alone, and its worker spoken and no more decided. */
  lemma OthersFirm(s: Setting, sys: System, after: System, n: nat)
    requires Firm(s, sys, n) && (n in after.workers <==> n in sys.workers) && VoicesFor(after, n) == VoicesFor(sys, n)
    requires forall c | c in after.decided + after.finalised && c.Tallied? && c.node == n :: c in sys.decided + sys.finalised
    requires n in after.workers ==> Spoken(after.workers[n])
    requires n in after.workers && after.workers[n].ballot.decision.Some? ==>
      after.workers[n].ballot == sys.workers[n].ballot && after.workers[n].height == sys.workers[n].height
    ensures Firm(s, after, n)
  {
    hide Spoken, QuorumAt;
  }

  lemma ReceiveSpoken(b: Build, w: WorkerState, message: ByteString)
    requires Spoken(w)
    ensures var w' := ReceiveOf(b, w, message); Spoken(w') && w'.ballot == w.ballot && w'.height == w.height
  {
    hide DecodeVote, VerifySig;
  }

  lemma OtherTickFirm(s: Setting, sys: System, e: Event, n: nat)
    requires s.build.cadence.Valid() && Enabled(sys, e) && e.Tick? && e.node != n && Firm(s, sys, n)
    ensures Firm(s, Step(s, sys, e), n)
  {
    hide TickOf, VoicesAfter, QuorumAt, Spoken;
  }

  lemma ReceiveFirm(s: Setting, sys: System, e: Event, n: nat)
    requires s.build.cadence.Valid() && Enabled(sys, e) && e.Receive? && Firm(s, sys, n)
    ensures Firm(s, Step(s, sys, e), n)
  {
    hide ReceiveOf, DecodeVote, Spoken, QuorumAt;
    if e.node == n { ReceiveSpoken(s.build, sys.workers[n], e.message); }
    OthersFirm(s, sys, Step(s, sys, e), n);
  }

  lemma ImportFirm(s: Setting, sys: System, e: Event, n: nat)
    requires s.build.cadence.Valid() && Enabled(sys, e) && e.Import? && Firm(s, sys, n)
    ensures Firm(s, Step(s, sys, e), n)
  {
    if Reception(s, e.chain, e.number, e.hash, e.proof) == Accepted { ReceptionReads(s, e.chain, e.number, e.hash, e.proof); }
    hide Reception, Spoken, QuorumAt, ProofVoices, VotesIn;
    OthersFirm(s, sys, Step(s, sys, e), n);
  }

  lemma RestartFirm(s: Setting, sys: System, e: Event, n: nat)
    requires s.build.cadence.Valid() && Enabled(sys, e) && e.Restart? && Firm(s, sys, n)
    ensures Firm(s, Step(s, sys, e), n)
  {
    hide QuorumAt, PinnedAt;
  }

  lemma StepFirm(s: Setting, sys: System, e: Event, n: nat)
    requires s.build.cadence.Valid() && Inv(s, sys) && Enabled(sys, e) && Trusted(s, sys, e)
    requires KeepsKeys(s, sys, e, n) && Firm(s, sys, n)
    ensures Firm(s, Step(s, sys, e), n)
  {
    hide Firm, Inv, Trusted, KeepsKeys, Step;
    match e
    case Tick(m, _, _, _, _) => if m == n { TickFirm(s, sys, e, n); } else { OtherTickFirm(s, sys, e, n); }
    case Receive(_, _) => ReceiveFirm(s, sys, e, n);
    case Import(_, _, _, _, _, _) => ImportFirm(s, sys, e, n);
    case Restart(_, _) => RestartFirm(s, sys, e, n);
  }

  ghost predicate KeptKeys(s: Setting, states: seq<System>, events: seq<Event>, n: nat, upTo: nat)
    requires s.build.cadence.Valid() && Runs(s, states, events) && upTo <= |events|
  {
    forall i | 0 <= i < upTo :: Moves(s, states[i], events[i], states[i + 1]) && KeepsKeys(s, states[i], events[i], n)
  }

  lemma {:induction false} RunFirm(s: Setting, states: seq<System>, events: seq<Event>, n: nat, i: nat)
    requires s.build.cadence.Valid() && Runs(s, states, events) && TrustedRun(s, states, events) && i < |states|
    requires KeptKeys(s, states, events, n, i)
    ensures Firm(s, states[i], n)
  {
    if i > 0 {
      RunFirm(s, states, events, n, i - 1);
      RunKeepsInv(s, states, events, i - 1);
      assert Moves(s, states[i - 1], events[i - 1], states[i]) && Trusted(s, states[i - 1], events[i - 1]);
      assert KeepsKeys(s, states[i - 1], events[i - 1], n);
      StepFirm(s, states[i - 1], events[i - 1], n);
    }
  }

  // ---------------------------------------------------------------- accountable safety

  ghost predicate Signed(s: Setting, v: Vote, number: U64, a: ByteString) {
    v.height == number && Valid(s)(v)
    && ResolveVoter(v.signer, s.delegationOf(Truncated(number))) == a
  }

  /** A claim by proof, or by the tally of a node whose keys held. */
  ghost predicate Sure(s: Setting, states: seq<System>, events: seq<Event>, c: Claim)
    requires s.build.cadence.Valid() && Runs(s, states, events)
  {
    c.Imported? || KeptKeys(s, states, events, c.node, |events|)
  }

  lemma SureClaims(s: Setting, states: seq<System>, events: seq<Event>, c: Claim)
    requires s.build.cadence.Valid() && Runs(s, states, events) && TrustedRun(s, states, events)
    requires c in states[|events|].finalised && Sure(s, states, events, c)
    ensures c.voices >= QuorumAt(s, c.number)
  {
    RunKeepsInv(s, states, events, |events|);
    assert c in states[|events|].decided + states[|events|].finalised;
    if c.Tallied? { RunFirm(s, states, events, c.node, |events|); }
    hide Sound, Alpha, Backers;
  }

  lemma Overlap(committee: set<ByteString>, a: set<ByteString>, b: set<ByteString>)
    requires a <= committee && b <= committee
    ensures |a * b| + |committee| >= |a| + |b|
  {
    CardinalityOfSubset(a + b, committee);
    assert |a + b| == |a| + |b| - |a * b|;
  }

  /** The accounts caught with valid signatures on both hashes. */
  ghost function Caught(s: Setting, evidence: set<Vote>, number: U64, x: Digest, y: Digest): set<ByteString> {
    Backers(s, evidence, number, x) * Backers(s, evidence, number, y)
  }

  /** ACCOUNTABLE SAFETY. If in any run two nodes make different hashes final at one height, at least as many
      accounts of that height's committee are caught with valid signatures on both as the voices of the two
      claims exceed the committee. If both claims are by an accepted proof, or by the tally of a node whose
      keys held, that is `2 alpha - k`, at least two fifths of the committee. */
  lemma AccountableSafety(s: Setting, states: seq<System>, events: seq<Event>, c: Claim, d: Claim)
    requires s.build.cadence.Valid() && Runs(s, states, events) && TrustedRun(s, states, events)
    requires c in states[|events|].finalised && d in states[|events|].finalised && c.number == d.number && c.hash != d.hash
    ensures var k, evidence := |s.committeeOf(Truncated(c.number))|, states[|events|].evidence;
      var caught := Caught(s, evidence, c.number, c.hash, d.hash);
      && |caught| >= c.voices + d.voices - k
      && (Sure(s, states, events, c) && Sure(s, states, events, d) ==>
            |caught| >= 2 * Alpha(k) - k && |caught| >= CeilDiv(2 * k, 5) && |caught| >= 1)
      && forall a | a in caught :: a in s.committeeOf(Truncated(c.number))
           && (exists u :: u in evidence && u.hash == c.hash && Signed(s, u, c.number, a))
           && (exists v :: v in evidence && v.hash == d.hash && Signed(s, v, c.number, a))
  {
    RunKeepsInv(s, states, events, |events|);
    var last := states[|events|];
    var committee := s.committeeOf(Truncated(c.number));
    assert c in last.decided + last.finalised && d in last.decided + last.finalised;
    var bx, by' := Backers(s, last.evidence, c.number, c.hash), Backers(s, last.evidence, c.number, d.hash);
    assert |bx| >= c.voices && |by'| >= d.voices;
    Overlap(committee, bx, by');
    if Sure(s, states, events, c) && Sure(s, states, events, d) {
      SureClaims(s, states, events, c);
      SureClaims(s, states, events, d);
      OverlapBound(|committee|);
    }
    CaughtSigned(s, last.evidence, c.number, c.hash, d.hash);
  }

  lemma CaughtSigned(s: Setting, evidence: set<Vote>, number: U64, x: Digest, y: Digest)
    ensures forall a | a in Caught(s, evidence, number, x, y) ::
      && a in s.committeeOf(Truncated(number))
      && (exists u :: u in evidence && u.hash == x && Signed(s, u, number, a))
      && (exists v :: v in evidence && v.hash == y && Signed(s, v, number, a))
  {
    forall a | a in Caught(s, evidence, number, x, y)
      ensures a in s.committeeOf(Truncated(number))
      ensures (exists u :: u in evidence && u.hash == x && Signed(s, u, number, a))
      ensures (exists v :: v in evidence && v.hash == y && Signed(s, v, number, a))
    {
      var u :| u in evidence && u.hash == x && Signed(s, u, number, a);
      var v :| v in evidence && v.hash == y && Signed(s, v, number, a);
    }
  }
}
