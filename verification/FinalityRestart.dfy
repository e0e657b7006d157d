/** A run in which a node decides one height twice: it restarts between deciding and finalising, on a chain
    that has meanwhile taken another block. */
module FinalityRestart {
  import opened Bytes
  import opened Voting
  import opened FinalityProof
  import opened FinalityWorker
  import opened FinalityRun
  import opened FinalityLatch
  import opened FinalityLiveness
  import opened FinalityBoundary

  const OTHER_BLOCK: Digest := [5] + Zeros(31)

  function NobodyDelegates(at: Digest): map<ByteString, ByteString> { map[] }
  function NoDelegationAt(h: U32): map<ByteString, ByteString> { map[] }

  function Small(): Setting {
    Setting(Build(TESTNET, 1, AnySignature, Domain(0, ZERO_HASH)), Committee, NoDelegationAt)
  }

  /** Finality at 2, and `x` at height 10. */
  function Showing(x: Digest): Chain {
    Chain(2, 10, x, map[0 := GENESIS, 10 := x], OnlyMember, NobodyDelegates, SpecOne, NeverHalted)
  }

  function MemberVote(x: Digest): Vote { Vote(10, x, MEMBER, Zeros(64)) }

  function Alone(): System {
    System(map[0 := Booted(Small().build, Showing(BLOCK))], map[], {}, {}, {})
  }

  ghost function Hearing(sys: System, x: Digest): System requires 0 in sys.workers {
    Step(Small(), sys, Receive(0, EncodeVote(MemberVote(x))))
  }

  /** The member's vote for `x` arrives, and then four ticks pass. */
  ghost function HearAndTick(sys: System, x: Digest): (r: System)
    requires 0 in sys.workers
    ensures 0 in r.workers
  {
    TickedSystem(Small(), Hearing(sys, x), 0, Showing(x), 4)
  }

  ghost predicate Blank(w: WorkerState) {
    w.height == 10 && w.committee == {MEMBER} && w.delegation == map[] && w.votes == map[] && w.ballot.decision.None?
  }

  lemma BootedIsBlank(x: Digest)
    ensures Blank(Booted(Small().build, Showing(x)))
  {}

  lemma HeardVote(w: WorkerState, x: Digest)
    requires Blank(w)
    ensures var w' := ReceiveOf(Small().build, w, EncodeVote(MemberVote(x)));
      w'.height == 10 && w'.votes == map[MEMBER := MemberVote(x)] && w'.ballot == w.ballot
  {
    VoteCodec(MemberVote(x), EncodeVote(MemberVote(x)));
    hide EncodeVote, DecodeVote;
  }

  lemma HeardCarries(w: WorkerState, x: Digest)
    requires w.height == 10 && w.votes == map[MEMBER := MemberVote(x)]
    ensures Serves(Small().build, Showing(x), 10) && Carries(Refreshed(Small().build, w, Showing(x)), x)
  {
    var chain := Showing(x);
    assert PinnedAt(TESTNET, chain, 10) == x && TargetHash(chain, 10) == (x, true) && OnlyMember(1, x) == {MEMBER};
    assert Retained(w.votes, {MEMBER}) == w.votes;
    OnlyVote(w.votes, MEMBER, MemberVote(x));
    hide Selected;
  }

  lemma BlankDecides(sys: System, x: Digest)
    requires 0 in sys.workers && Blank(sys.workers[0])
    ensures sys.decided <= HearAndTick(sys, x).decided && DecidedBy(HearAndTick(sys, x), 0, 10, x)
  {
    HeardVote(sys.workers[0], x);
    var heard := Hearing(sys, x);
    assert heard.workers[0] == ReceiveOf(Small().build, sys.workers[0], EncodeVote(MemberVote(x))) && heard.decided == sys.decided;
    HeardCarries(heard.workers[0], x);
    hide Hearing, Serves, Carries, Refreshed, TickedSystem, DecidedBy, EncodeVote, ReceiveOf, Showing;
    QuorumDecidesInRun(Small(), heard, 0, Showing(x), x);
  }

  lemma ShowingCoheres(x: Digest)
    ensures Coherent(Small(), Showing(x))
  {
    forall h: U32
      ensures ReadsAt(Small(), Showing(x), h) && (h in Showing(x).blocks ==> FirstOf(Small(), h) in Showing(x).blocks)
    {
      assert FirstOf(Small(), h) == h - h % 10;
    }
    hide ReadsAt, FirstOf;
  }

  ghost function Restarted(sys: System, x: Digest): (r: System)
    requires 0 in sys.workers
    ensures 0 in r.workers
  {
    Step(Small(), sys, Restart(0, Showing(x)))
  }

  lemma RestartedIsBlank(sys: System, x: Digest)
    requires 0 in sys.workers
    ensures Blank(Restarted(sys, x).workers[0]) && Restarted(sys, x).decided == sys.decided
    ensures DecidedBy(sys, 0, 10, BLOCK) ==> !Settled(Small(), sys, 0, Showing(x))
  {
    BootedIsBlank(x);
    assert Aim(TESTNET, 2) == 10;
    hide Booted, Blank;
  }

  lemma DecidedStays(a: System, b: System, n: nat, number: U64, x: Digest)
    requires DecidedBy(a, n, number, x) && a.decided <= b.decided
    ensures DecidedBy(b, n, number, x)
  {}

  /** The node decides one block, restarts before it is final, and decides the other. All it sees is coherent;
      only the restart is unsettled. */
  lemma RestartForgets()
    ensures Started(Alone()) && Coherent(Small(), Showing(BLOCK)) && Coherent(Small(), Showing(OTHER_BLOCK))
    ensures var first := HearAndTick(Alone(), BLOCK);
      var last := HearAndTick(Restarted(first, OTHER_BLOCK), OTHER_BLOCK);
      && !Settled(Small(), first, 0, Showing(OTHER_BLOCK))
      && DecidedBy(last, 0, 10, BLOCK) && DecidedBy(last, 0, 10, OTHER_BLOCK) && BLOCK != OTHER_BLOCK
  {
    ShowingCoheres(BLOCK);
    ShowingCoheres(OTHER_BLOCK);
    BootedIsBlank(BLOCK);
    assert BLOCK[0] == 2 && OTHER_BLOCK[0] == 5;
    hide HearAndTick, Restarted, Booted, Coherent, Blank, DecidedBy, Settled, Showing;
    BlankDecides(Alone(), BLOCK);
    var first := HearAndTick(Alone(), BLOCK);
    RestartedIsBlank(first, OTHER_BLOCK);
    BlankDecides(Restarted(first, OTHER_BLOCK), OTHER_BLOCK);
    DecidedStays(first, HearAndTick(Restarted(first, OTHER_BLOCK), OTHER_BLOCK), 0, 10, BLOCK);
  }
}
