/** An epoch boundary at which pruning the votes of a stale committee is not enough: a run of one worker in
    which its own tally decides and nobody accepts the proof. */
module FinalityBoundary {
  import opened Bytes
  import opened Quorum
  import opened Voting
  import opened FinalityProof
  import opened FinalityWorker
  import opened FinalityRun
  import opened FinalityAttempts
  import opened FinalityLiveness

  const MEMBER: Digest := Zeros(32)
  const SESSION_KEY: Digest := [1] + Zeros(31)
  const BLOCK: Digest := [2] + Zeros(31)
  const GENESIS: Digest := [4] + Zeros(31)
  const HELD_VOTE := Vote(10, BLOCK, SESSION_KEY, Zeros(64))

  predicate AnySignature(sig: ByteString, message: ByteString, key: ByteString) { true }
  function OnlyMember(epoch: nat, at: Digest): set<ByteString> { {MEMBER} }
  function Committee(h: U32): set<ByteString> { {MEMBER} }
  function SpecOne(at: Digest): Option<U32> { Some(1) }
  function NeverHalted(at: Digest): Option<bool> { Some(false) }

  /** The member has delegated to a session key, and withdraws it by block 10. */
  function DelegationRead(at: Digest): map<ByteString, ByteString> {
    if at == GENESIS then map[SESSION_KEY := MEMBER] else map[]
  }

  function DelegationOf(h: U32): map<ByteString, ByteString> {
    if h < 10 then map[SESSION_KEY := MEMBER] else map[]
  }

  function Withdrawn(): Setting {
    Setting(Build(TESTNET, 1, AnySignature, Domain(0, ZERO_HASH)), Committee, DelegationOf)
  }

  /** Before block 10 arrives, and with it. */
  function Before(): Chain {
    Chain(2, 9, GENESIS, map[0 := GENESIS], OnlyMember, DelegationRead, SpecOne, NeverHalted)
  }

  function Boundary(): Chain {
    Chain(2, 10, BLOCK, map[0 := GENESIS, 10 := BLOCK], OnlyMember, DelegationRead, SpecOne, NeverHalted)
  }

  /** A worker that aims at block 10 before it is there, and is sent the session key's vote. */
  function Waiting(): WorkerState {
    var blank := WorkerState(0, ZERO_HASH, {}, map[], map[], Ballot(ZERO_HASH, 0, None), 0, 0);
    ReceiveOf(Withdrawn().build, Retarget(Withdrawn().build, Before(), blank, 10), EncodeVote(HELD_VOTE))
  }

  lemma DistinctConstants()
    ensures MEMBER != SESSION_KEY && BLOCK != GENESIS && ZERO_HASH != BLOCK
  {
    assert MEMBER[0] == 0 && SESSION_KEY[0] == 1 && BLOCK[0] == 2 && GENESIS[0] == 4 && ZERO_HASH[0] == 0;
  }

  lemma WaitingState()
    ensures Waiting() == WorkerState(
      10, GENESIS, {MEMBER}, map[SESSION_KEY := MEMBER], map[MEMBER := HELD_VOTE], Ballot(ZERO_HASH, 0, None), 0, 0)
  {
    VoteCodec(HELD_VOTE, EncodeVote(HELD_VOTE));
    DistinctConstants();
    hide EncodeVote, DecodeVote;
  }

  lemma OnlyVote(votes: map<ByteString, Vote>, a: ByteString, v: Vote)
    requires votes == map[a := v]
    ensures |Selected(v.height, v.hash, votes)| == 1
  {
    SelectedMembers(votes, v.height, v.hash, v);
    assert MatchingKey(votes, a, v, v.height, v.hash);
    assert v in Selected(v.height, v.hash, votes);
  }

  /** When block 10 is there, the tick re-reads the delegation and keeps the vote: its account still sits. */
  lemma VoteIsKept()
    ensures Serves(Withdrawn().build, Boundary(), 10)
    ensures Refreshed(Withdrawn().build, Waiting(), Boundary()) ==
      WorkerState(10, BLOCK, {MEMBER}, map[], map[MEMBER := HELD_VOTE], Ballot(ZERO_HASH, 0, None), 0, 0)
  {
    WaitingState();
    DistinctConstants();
    assert PinnedAt(TESTNET, Boundary(), 10) == BLOCK && TargetHash(Boundary(), 10) == (BLOCK, true);
    assert OnlyMember(1, BLOCK) == {MEMBER};
    assert Retained(map[MEMBER := HELD_VOTE], {MEMBER}) == map[MEMBER := HELD_VOTE];
  }

  ghost predicate KeptVote(w: WorkerState) {
    w.height == 10 && w.committee == {MEMBER} && w.votes == map[MEMBER := HELD_VOTE]
  }

  lemma VoteCarries(now: WorkerState)
    requires KeptVote(now)
    ensures Carries(now, BLOCK)
  {
    OnlyVote(now.votes, MEMBER, HELD_VOTE);
    assert Alpha(1) == 1;
    hide Selected;
  }

  lemma KeptIsSound(w: WorkerState)
    requires KeptVote(w)
    ensures Sound(Withdrawn(), {HELD_VOTE}, w, 0)
  {
    hide Backers;
  }

  /** The fourth tick with the block. */
  ghost function Fourth(): Outcome { Quiet(Withdrawn().build, AfterTicks(Withdrawn().build, Waiting(), Boundary(), 3), Boundary()) }

  lemma FourthDecides()
    ensures Fourth().attempt.Some? && Fourth().attempt.value.hash == BLOCK && Fourth().attempt.value.height == 10
    ensures KeptVote(Fourth().counted) && KeptVote(AfterTicks(Withdrawn().build, Waiting(), Boundary(), 3))
  {
    var b, w, chain := Withdrawn().build, Waiting(), Boundary();
    WaitingState();
    VoteIsKept();
    VoteCarries(Refreshed(b, w, chain));
    hide Waiting, Refreshed, Quiet, AfterTicks, Carries, Serves, Boundary, AttemptOf;
    assert Rounds(b) == 4;
    QuorumDecides(b, w, chain, BLOCK);
    DecisionAttempts(AfterTicks(b, w, chain, 4), BLOCK);
    TicksConfirm(b, w, chain, BLOCK, 3);
  }

  lemma WaitingIsSound()
    ensures Sound(Withdrawn(), {HELD_VOTE}, Waiting(), 0) && Spoken(Waiting()) && !KeysHold(Withdrawn().build, Waiting(), Boundary())
  {
    WaitingState();
    VoteIsKept();
    DistinctConstants();
    var now := Refreshed(Withdrawn().build, Waiting(), Boundary());
    assert Aimed(Withdrawn().build, Waiting(), Boundary()) == Waiting();
    hide Waiting, Refreshed, Aimed;
    assert TargetHash(Boundary(), 10).1;
    assert MEMBER in now.votes && now.votes[MEMBER] == HELD_VOTE && ResolveVoter(HELD_VOTE.signer, now.delegation) == SESSION_KEY;
  }

  /** No account hears the vote any more. */
  lemma NobodySpeaks(w: WorkerState)
    requires w.height == 10 && w.votes == map[MEMBER := HELD_VOTE]
    ensures VoicesOf(Withdrawn(), w, BLOCK) == {}
  {
    DistinctConstants();
  }

  lemma ReadsAgree(chain: Chain, h: U32)
    requires chain == Before() || chain == Boundary()
    ensures ReadsAt(Withdrawn(), chain, h) && (h in chain.blocks ==> FirstOf(Withdrawn(), h) in chain.blocks)
  {
    DistinctConstants();
    assert FirstOf(Withdrawn(), h) == h - h % 10;
  }

  lemma ChainsCohere()
    ensures Coherent(Withdrawn(), Before()) && Coherent(Withdrawn(), Boundary()) && Pinned(TESTNET, Boundary(), 10)
  {
    forall chain: Chain, h: U32 | chain == Before() || chain == Boundary()
      ensures ReadsAt(Withdrawn(), chain, h) && (h in chain.blocks ==> FirstOf(Withdrawn(), h) in chain.blocks)
    {
      ReadsAgree(chain, h);
    }
    hide ReadsAt, FirstOf;
  }

  /** The prune does not keep the tally and the proof in step. A worker aims at block 10 before it has it, lets
      in a vote of a session key, and counts that vote when the block arrives and the key is no longer the
      member's: it decides, and no node that has the epoch's first block accepts the proof. All it sees is
      coherent; only `KeysHold` is broken. */
  lemma WithdrawnKeyBreaksProof(importer: Chain)
    requires Coherent(Withdrawn(), importer) && Pinned(TESTNET, importer, 10)
    ensures Coherent(Withdrawn(), Before()) && Coherent(Withdrawn(), Boundary())
    ensures Sound(Withdrawn(), {HELD_VOTE}, Waiting(), 0) && Spoken(Waiting())
    ensures !KeysHold(Withdrawn().build, Waiting(), Boundary())
    ensures var o := Fourth();
      && o.attempt.Some? && o.attempt.value.hash == BLOCK
      && Reception(Withdrawn(), importer, 10, BLOCK, o.attempt.value.proof) == Rejected(InsufficientSignatures)
  {
    ChainsCohere();
    WaitingIsSound();
    FourthDecides();
    NobodySpeaks(Fourth().counted);
    KeptIsSound(AfterTicks(Withdrawn().build, Waiting(), Boundary(), 3));
    hide Waiting, Quiet, AfterTicks, Boundary, Reception, Coherent, KeysHold, Pinned, Sound, ProvesExactly;
    var w := AfterTicks(Withdrawn().build, Waiting(), Boundary(), 3);
    AttemptConvinces(Withdrawn(), {HELD_VOTE}, w, Boundary(), None, false, Boundary(), 0, importer);
    NoVoicesRejected(Fourth(), importer);
  }

  lemma NoVoicesRejected(o: Outcome, importer: Chain)
    requires o.attempt.Some? && o.attempt.value.height == 10 && o.attempt.value.hash == BLOCK && o.counted.height == 10
    requires ConvincesExactly(Withdrawn(), o, importer) && VoicesOf(Withdrawn(), o.counted, BLOCK) == {}
    ensures Reception(Withdrawn(), importer, 10, BLOCK, o.attempt.value.proof) == Rejected(InsufficientSignatures)
  {
    assert Alpha(1) == 1;
    hide Reception, VoicesOf, Selected, Voices;
  }
}
