/** Two runs of the proof distributor, at real proof bytes, in which a proof that came before its block is
    never applied. */
module ProofGap {
  import opened Bytes
  import opened Numerals
  import opened Quorum
  import opened FinalityProof
  import opened FinalityWorker
  import opened FinalityRun
  import opened FinalityBoundary
  import opened ProofWorker

  const NEXT_BLOCK: Digest := [3] + Zeros(31)

  function NoDelegation(at: Digest): map<ByteString, ByteString> { map[] }

  /** The one member's proof of a block. */
  function ProofBytes(height: U64, hash: Digest): ByteString { ProofOf(height, hash, [Vote(height, hash, MEMBER, Zeros(64))]) }

  function ProofAt(height: U64, hash: Digest): Received { Received(height, hash, ProofBytes(height, hash)) }

  /** Finality at `finalized`; block 10 is here, and block 20 too if `synced`. */
  function View(finalized: U32, synced: bool): Chain {
    var blocks: map<U32, Digest> := map[10 := BLOCK];
    Chain(finalized, if synced then 20 else 10, if synced then NEXT_BLOCK else BLOCK,
          if synced then blocks[20 := NEXT_BLOCK] else blocks, OnlyMember, NoDelegation, SpecOne, NeverHalted)
  }

  lemma OneVoteSuffices(height: U64, hash: Digest)
    ensures HeaderOf(ProofBytes(height, hash)) == Some(ProofAt(height, hash))
    ensures Judge(Valid(Withdrawn()), hash, height, ProofBytes(height, hash), {MEMBER}, map[]) == Accepted
  {
    var v := Vote(height, hash, MEMBER, Zeros(64));
    ProofReadsBack(height, hash, [v]);
    hide ProofOf, VotesIn, CountIn, HeightIn;
    assert v in [v];
    assert MEMBER in Endorsers(Valid(Withdrawn()), [v], {MEMBER}, map[]);
    CardinalityOfSubset({MEMBER}, Endorsers(Valid(Withdrawn()), [v], {MEMBER}, map[]));
  }

  lemma ReceptionInView(finalized: U32, synced: bool, height: U32, hash: Digest)
    ensures Reception(Withdrawn(), View(finalized, synced), height, hash, ProofBytes(height, hash)) == Accepted
  {
    OneVoteSuffices(height, hash);
    var chain := View(finalized, synced);
    hide View, PinnedAt, ProofBytes, Judge;
    assert forall epoch: nat, at: Digest :: chain.committeeAt(epoch, at) == {MEMBER} by { ViewReads(finalized, synced); }
    assert forall at: Digest :: chain.delegationAt(at) == map[] by { ViewReads(finalized, synced); }
  }

  lemma ViewReads(finalized: U32, synced: bool)
    ensures forall epoch: nat, at: Digest :: View(finalized, synced).committeeAt(epoch, at) == {MEMBER}
    ensures forall at: Digest :: View(finalized, synced).delegationAt(at) == map[]
  {}

  /** What this worker makes of the two proofs: block 10 can be applied, block 20 only when it is there. */
  lemma ProvenInView(finalized: U32, synced: bool)
    ensures Proven(Withdrawn(), View(finalized, synced), ProofAt(10, BLOCK))
    ensures Proven(Withdrawn(), View(finalized, synced), ProofAt(20, NEXT_BLOCK)) <==> synced
  {
    hide Reception, ProofBytes, Withdrawn;
    ReceptionInView(finalized, synced, 10, BLOCK);
    ReceptionInView(finalized, synced, 20, NEXT_BLOCK);
  }

  const START := Cache(None, 2)

  /** The proof of block 20 is heard and cached; the proof of block 10, heard next, is applied and empties the
      cache; when block 20 arrives the timer has nothing to apply, although the proof it heard stands. */
  lemma LowerProofForgetsHigher()
    ensures var s := Withdrawn();
      var one := After(s, START, Message(View(2, false), true, ProofBytes(20, NEXT_BLOCK)));
      var two := After(s, one.0, Message(View(2, false), true, ProofBytes(10, BLOCK)));
      var three := After(s, two.0, Timer(View(10, true), true));
      && one.0.pending == Some(ProofAt(20, NEXT_BLOCK)) && two == (Cache(None, 10), 10) && three == (Cache(None, 10), 10)
      && Finalises(s, View(10, true), ProofAt(20, NEXT_BLOCK), true)
  {
    OneVoteSuffices(10, BLOCK);
    OneVoteSuffices(20, NEXT_BLOCK);
    ProvenInView(2, false);
    ProvenInView(10, true);
    hide Proven, ProofBytes, HeaderOf;
  }

  const BARE_HEADER: ByteString := LittleEndian(0xFFFF_FFFF_FFFF_FFFF, 8) + Zeros(32) + [0, 0]

  lemma BareHeaderReads()
    ensures HeaderOf(BARE_HEADER) == Some(Received(0xFFFF_FFFF_FFFF_FFFF, Zeros(32), BARE_HEADER)) && |BARE_HEADER| == PROOF_HEADER
  {
    U64RoundTrip(0xFFFF_FFFF_FFFF_FFFF);
    assert BARE_HEADER[0..8] == LittleEndian(0xFFFF_FFFF_FFFF_FFFF, 8);
    assert BARE_HEADER[8..40] == Zeros(32);
  }

  const BARE := Received(0xFFFF_FFFF_FFFF_FFFF, Zeros(32), BARE_HEADER)

  lemma BareHeaderCached()
    ensures After(Withdrawn(), START, Message(View(2, false), true, BARE_HEADER)).0 == Cache(Some(BARE), 2)
  {
    BareHeaderReads();
    UnreachableNeverProven(Withdrawn(), View(2, false), BARE);
    hide Proven, HeaderOf;
  }

  /** A cache of watermark 2 hears the proof of block 20 before the block, and then the timer. */
  lemma LateBlock(pending: Option<Received>)
    requires pending == None || pending == Some(BARE)
    ensures var s, c := Withdrawn(), Cache(pending, 2);
      var heard := After(s, c, Message(View(2, false), true, ProofBytes(20, NEXT_BLOCK))).0;
      After(s, heard, Timer(View(2, true), true)) == if pending == None then (Cache(None, 20), 20) else (c, 2)
  {
    OneVoteSuffices(20, NEXT_BLOCK);
    ProvenInView(2, false);
    ProvenInView(2, true);
    BareHeaderReads();
    UnreachableNeverProven(Withdrawn(), View(2, true), BARE);
    hide Proven, ProofBytes, HeaderOf;
  }

  /** A header that nothing stands behind is cached first; the proof of block 20 is then not kept, and when
      the block arrives the timer finalises nothing. Without the header it finalises block 20. */
  lemma BareHeaderStarves()
    ensures var s := Withdrawn();
      var early, late := Message(View(2, false), true, ProofBytes(20, NEXT_BLOCK)), Timer(View(2, true), true);
      var blocked := After(s, START, Message(View(2, false), true, BARE_HEADER)).0;
      && After(s, After(s, blocked, early).0, late) == (blocked, 2)
      && After(s, After(s, START, early).0, late) == (Cache(None, 20), 20)
  {
    hide After, ProofBytes;
    BareHeaderCached();
    LateBlock(None);
    LateBlock(Some(BARE));
  }
}
