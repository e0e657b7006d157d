/** What a tick signs, and exactly when it signs at all. */
module FinalityVote {
  import opened Bytes
  import opened Numerals
  import opened Voting
  import opened FinalityProof
  import opened FinalityWorker

  // ---------------------------------------------------------------- the boundary a halted band is left for

  predicate OnGrid(c: Cadence, from: int, y: U32) requires c.Valid() { y >= from && (y - from) % c.step == 0 }

  /** Buried under the best block (up to the 32-bit ceiling), not halted where its epoch is read, and with a committee
      there. */
  predicate Healed(c: Cadence, chain: Chain, y: U32) requires c.Valid() {
    && (y + c.burial <= chain.best || chain.best == U32_MAX)
    && chain.haltedAt(PinnedAt(c, chain, y)) == Some(false)
    && chain.committeeAt(y / c.epochLength, PinnedAt(c, chain, y)) != {}
  }

  /** `x` is the first boundary from `from` on, in steps, that is buried and healthy. */
  ghost predicate FirstHealed(c: Cadence, chain: Chain, from: int, x: U32) requires c.Valid() {
    && OnGrid(c, from, x) && Healed(c, chain, x)
    && forall y: U32 | OnGrid(c, from, y) && y < x :: !Healed(c, chain, y)
  }

  lemma ModuloStep(d: int, s: int)
    requires s > 0 && d > 0
    ensures d >= s ==> (d - s) % s == d % s
    ensures d < s ==> d % s != 0
  {
    if d >= s {
      assert (d / s) * s + d % s == d && ((d - s) / s) * s + (d - s) % s == d - s;
      assert ((d - s) / s + 1) * s == ((d - s) / s) * s + s;
      QuotientUnique(s, (d - s) / s + 1, (d - s) % s, d / s, d % s);
    } else {
      QuotientUnique(s, 0, d, d / s, d % s);
    }
  }

  lemma NextOnGrid(c: Cadence, from: int, y: U32)
    requires c.Valid() && y > from
    ensures OnGrid(c, from, y) <==> OnGrid(c, from + c.step, y)
  {
    ModuloStep(y - from, c.step);
    assert y - (from + c.step) == y - from - c.step;
  }

  lemma BurialFalls(c: Cadence, chain: Chain, x: U32, y: U32)
    requires c.Valid() && x <= y && !Buried(c, chain, x)
    ensures !Healed(c, chain, y)
  {
    hide PinnedAt;
  }

  lemma HealthyIsHealed(c: Cadence, chain: Chain, y: U32)
    requires c.Valid()
    ensures Buried(c, chain, y) && Healthy(c, chain, y) <==> Healed(c, chain, y)
  {
    hide PinnedAt;
  }

  /** What the scan's answer means. */
  ghost predicate Answers(c: Cadence, chain: Chain, from: int, first: Option<U32>) requires c.Valid() {
    match first
    case Some(x) => FirstHealed(c, chain, from, x)
    case None => forall y: U32 | OnGrid(c, from, y) :: !Healed(c, chain, y)
  }

  lemma NoneBuried(c: Cadence, chain: Chain, from: int)
    requires c.Valid() && (from > U32_MAX || (0 <= from && !Buried(c, chain, from)))
    ensures Answers(c, chain, from, None)
  {
    hide Healed, Buried;
    forall y: U32 | OnGrid(c, from, y) ensures !Healed(c, chain, y) { BurialFalls(c, chain, from, y); }
  }

  lemma FirstHere(c: Cadence, chain: Chain, from: U32)
    requires c.Valid() && Healed(c, chain, from)
    ensures Answers(c, chain, from, Some(from))
  {
    hide Healed;
    assert 0 % c.step == 0;
  }

  lemma FirstBeyond(c: Cadence, chain: Chain, from: U32, first: Option<U32>)
    requires c.Valid() && !Healed(c, chain, from) && Answers(c, chain, from + c.step, first)
    ensures Answers(c, chain, from, first)
  {
    hide Healed, OnGrid;
    forall y: U32 | y > from ensures OnGrid(c, from, y) <==> OnGrid(c, from + c.step, y) { NextOnGrid(c, from, y); }
    forall y: U32 | y < from ensures !OnGrid(c, from, y) && !OnGrid(c, from + c.step, y) {
      BelowGrid(c, from, y);
      BelowGrid(c, from + c.step, y);
    }
    BelowGrid(c, from + c.step, from);
  }

  lemma BelowGrid(c: Cadence, from: int, y: U32)
    requires c.Valid() && y < from
    ensures !OnGrid(c, from, y)
  {}

  /** The scan answers with the first boundary that has healed, and with none exactly if there is none. */
  lemma {:induction false} FirstHealthyExactly(c: Cadence, chain: Chain, from: int)
    requires c.Valid() && 0 <= from
    ensures Answers(c, chain, from, FirstHealthy(c, chain, from))
    decreases U32_MAX + 1 - from
  {
    hide PinnedAt, Healed, Healthy, Buried, Answers;
    if from > U32_MAX || !Buried(c, chain, from) {
      NoneBuried(c, chain, from);
      return;
    }
    HealthyIsHealed(c, chain, from);
    if Healthy(c, chain, from) {
      FirstHere(c, chain, from);
    } else {
      FirstHealthyExactly(c, chain, from + c.step);
      FirstBeyond(c, chain, from, FirstHealthy(c, chain, from + c.step));
    }
  }

  // ---------------------------------------------------------------- the height a tick votes at

  /** The height aimed at when the tick starts: one step past finality once that has caught up. */
  function StartingAt(c: Cadence, w: WorkerState, chain: Chain): U32 {
    if w.height <= chain.finalized then (chain.finalized + c.step) % 0x1_0000_0000 else w.height
  }

  /** The node has its own chain's block at `h`, and reads there the specification it was built for. */
  predicate InStep(b: Build, chain: Chain, h: U32) requires b.cadence.Valid() {
    h <= chain.best && h in chain.blocks && chain.specAt(PinnedAt(b.cadence, chain, h)) == Some(b.spec)
  }

  predicate Seats(b: Build, chain: Chain, h: U32) requires b.cadence.Valid() {
    chain.committeeAt(h / b.cadence.epochLength, PinnedAt(b.cadence, chain, h)) != {}
  }

  /** The tick comes to its vote, at height `h`: the one aimed at if that has a committee, or, if it has none because
      of a halt, the first boundary beyond that has healed and whose block is there. */
  ghost predicate VotesAt(b: Build, w: WorkerState, chain: Chain, h: U32) requires b.cadence.Valid() {
    var start := StartingAt(b.cadence, w, chain);
    && InStep(b, chain, start)
    && if Seats(b, chain, start) then h == start
       else
         && chain.haltedAt(PinnedAt(b.cadence, chain, start)) == Some(true)
         && FirstHealed(b.cadence, chain, start + b.cadence.step, h)
         && h <= chain.best && h in chain.blocks
  }

  lemma VotesAtOne(b: Build, w: WorkerState, chain: Chain, h: U32, h': U32)
    requires b.cadence.Valid() && VotesAt(b, w, chain, h) && VotesAt(b, w, chain, h')
    ensures h == h'
  {
    hide PinnedAt, Healed, OnGrid;
  }

  lemma AimedStarts(b: Build, w: WorkerState, chain: Chain)
    requires b.cadence.Valid()
    ensures Aimed(b, w, chain).height == StartingAt(b.cadence, w, chain)
  {
    hide PinnedAt;
  }

  lemma SkipVotes(b: Build, w: WorkerState, chain: Chain)
    requires b.cadence.Valid() && w.at == PinnedAt(b.cadence, chain, w.height)
    ensures var p := SkipOf(b, w, chain);
      p.1.Some? ==>
        && chain.haltedAt(w.at) == Some(true) && FirstHealed(b.cadence, chain, w.height + b.cadence.step, p.0.height)
        && p.0.height <= chain.best && p.0.height in chain.blocks && p.1 == Some(chain.blocks[p.0.height])
    ensures SkipOf(b, w, chain).1.None? ==>
      chain.haltedAt(w.at) == Some(true) ==>
        forall h: U32 | FirstHealed(b.cadence, chain, w.height + b.cadence.step, h) :: h > chain.best || h !in chain.blocks
  {
    var from := w.height + b.cadence.step;
    FirstHealthyExactly(b.cadence, chain, from);
    var first := FirstHealthy(b.cadence, chain, from);
    hide FirstHealthy, PinnedAt, OnGrid;
    if first.Some? {
      HealedHasCommittee(b.cadence, chain, first.value);
      forall h: U32 | FirstHealed(b.cadence, chain, from, h) ensures h == first.value {}
    }
    hide Healed;
  }

  lemma HealedHasCommittee(c: Cadence, chain: Chain, y: U32)
    requires c.Valid() && Healed(c, chain, y)
    ensures |CommitteeFor(c, chain, y, PinnedAt(c, chain, y))| > 0
  {}

  /** How far a tick gets before its vote. */
  lemma PreparedVotes(b: Build, w: WorkerState, chain: Chain)
    requires b.cadence.Valid()
    ensures var p := Prepared(b, w, chain);
      p.1.Some? ==> VotesAt(b, w, chain, p.0.height) && p.0.height in chain.blocks && p.1 == Some(chain.blocks[p.0.height])
    ensures Prepared(b, w, chain).1.None? ==> forall h: U32 :: !VotesAt(b, w, chain, h)
  {
    hide SkipOf, PinnedAt, FirstHealed, Retained;
    AimedStarts(b, w, chain);
    var w1 := Aimed(b, w, chain);
    hide Aimed, StartingAt;
    var w2 := Refreshed(b, w1, chain);
    SkipVotes(b, w2, chain);
  }

  /** WHAT IS SIGNED. Every vote a tick sends is for the block of the node's own chain at the height it then works
      on, signed with its key over that height and hash; and it sends one exactly if it has a key and comes to
      its vote. */
  lemma VoteSentExactly(b: Build, w: WorkerState, chain: Chain, key: Option<VoteKey>, finalizes: bool, after: Chain)
    requires b.cadence.Valid()
    ensures var o := TickOf(b, w, chain, key, finalizes, after);
      && (o.sent.Some? <==> key.Some? && exists h: U32 :: VotesAt(b, w, chain, h))
      && (o.sent.Some? ==>
            var v := o.sent.value;
            && v.height <= U32_MAX && VotesAt(b, w, chain, v.height) && v.height == o.counted.height
            && v.height <= chain.best && v.height in chain.blocks && v.hash == chain.blocks[v.height]
            && v.signer == key.value.signer && v.sig == key.value.sign(SignMessage(b.domain, v.height, v.hash)))
  {
    hide Prepared, VotesAt, Counted, KeepVote, SignMessage, Retarget, AttemptOf;
    PreparedVotes(b, w, chain);
    var p := Prepared(b, w, chain);
    if p.1.Some? { CountedHeight(b, p.0, key, p.1.value, finalizes, after); VotesWithin(b, w, chain, p.0.height); }
  }

  lemma VotesWithin(b: Build, w: WorkerState, chain: Chain, h: U32)
    requires b.cadence.Valid() && VotesAt(b, w, chain, h)
    ensures h <= chain.best && h in chain.blocks
  {
    hide PinnedAt, FirstHealed;
  }

  lemma CountedHeight(b: Build, w: WorkerState, key: Option<VoteKey>, pref: Digest, finalizes: bool, after: Chain)
    requires b.cadence.Valid()
    ensures VoteAndCount(b, w, key, pref, finalizes, after).counted.height == w.height
  {
    hide LeadingOf, PinnedAt, OwnVote, AttemptOf, Tally, Advance;
  }

  /** A sent vote passes every receiver's signature check, if signing and verifying agree. */
  lemma SentVoteVerifies(b: Build, w: WorkerState, chain: Chain, key: VoteKey, finalizes: bool, after: Chain)
    requires b.cadence.Valid() && forall m: ByteString :: b.scheme(key.sign(m), m, key.signer)
    requires TickOf(b, w, chain, Some(key), finalizes, after).sent.Some?
    ensures var v := TickOf(b, w, chain, Some(key), finalizes, after).sent.value;
      VerifySig(b.scheme, b.domain, v) && DecodeVote(EncodeVote(v)) == Some(v)
  {
    hide TickOf, SignMessage, VotesAt, EncodeVote, DecodeVote;
    VoteSentExactly(b, w, chain, Some(key), finalizes, after);
    var v := TickOf(b, w, chain, Some(key), finalizes, after).sent.value;
    VoteCodec(v, EncodeVote(v));
  }

  /** HOW A TICK ENDS. If it came to its vote and the height is decided, by now or before, it hands over that height and
      hash; only if they are then finalised it aims afresh, one step past what is final, and else nothing moves. */
  lemma TickEnds(b: Build, w: WorkerState, chain: Chain, key: Option<VoteKey>, finalizes: bool, after: Chain)
    requires b.cadence.Valid()
    ensures var o, votes := TickOf(b, w, chain, key, finalizes, after), exists h: U32 :: VotesAt(b, w, chain, h);
      && (o.attempt.Some? <==> votes && o.counted.ballot.decision.Some?)
      && (o.attempt.Some? ==> o.attempt.value.height == o.counted.height && Some(o.attempt.value.hash) == o.counted.ballot.decision)
      && (votes ==> VotesAt(b, w, chain, o.counted.height) && o.counted.specSkew == 0)
      && o.next ==
           if o.attempt.Some? && finalizes
           then Retarget(b, after, o.counted, (after.finalized + b.cadence.step) % 0x1_0000_0000)
           else o.counted
  {
    hide Prepared, VotesAt, Counted, KeepVote, OwnVote, Retarget, ProofOf;
    PreparedVotes(b, w, chain);
    var p := Prepared(b, w, chain);
    if p.1.Some? {
      CountedHeight(b, p.0, key, p.1.value, finalizes, after);
      CountedSkew(b, p.0, key, p.1.value, finalizes, after);
      PreparedSkew(b, w, chain);
    }
  }

  lemma CountedSkew(b: Build, w: WorkerState, key: Option<VoteKey>, pref: Digest, finalizes: bool, after: Chain)
    requires b.cadence.Valid()
    ensures VoteAndCount(b, w, key, pref, finalizes, after).counted.specSkew == w.specSkew
  {
    hide LeadingOf, PinnedAt, OwnVote, AttemptOf, Tally, Advance;
  }

  lemma PreparedSkew(b: Build, w: WorkerState, chain: Chain)
    requires b.cadence.Valid()
    ensures Prepared(b, w, chain).1.Some? ==> Prepared(b, w, chain).0.specSkew == 0
  {
    hide PinnedAt, FirstHealthy, Aimed, Retained;
  }

  // ---------------------------------------------------------------- what a tick leaves alone

  /** Aiming at a height starts afresh: no votes, no confirmations, no stall, the node's own block preferred, and the
      committee and delegation of the block the epoch is read at. */
  lemma FreshAim(b: Build, chain: Chain, w: WorkerState, height: U32)
    requires b.cadence.Valid()
    ensures var w', at := Retarget(b, chain, w, height), PinnedAt(b.cadence, chain, height);
      && w'.height == height && w'.at == at && w'.votes == map[] && w'.belowQuorum == 0 && w'.specSkew == w.specSkew
      && w'.committee == chain.committeeAt(height / b.cadence.epochLength, at) && w'.delegation == chain.delegationAt(at)
      && w'.ballot.streak == 0 && w'.ballot.decision.None?
      && w'.ballot.pref == if height <= chain.best && height in chain.blocks then chain.blocks[height] else Zeros(32)
  {
    hide PinnedAt;
  }

  /** On a runtime it was not built for a node is passive: it re-aims and counts the tick, and neither votes, counts
      nor decides. */
  lemma PassiveTick(b: Build, w: WorkerState, chain: Chain, key: Option<VoteKey>, finalizes: bool, after: Chain)
    requires b.cadence.Valid()
    ensures var start, aimed := StartingAt(b.cadence, w, chain), Aimed(b, w, chain);
      var at := PinnedAt(b.cadence, chain, start);
      start <= chain.best && start in chain.blocks && chain.specAt(at) != Some(b.spec) ==>
        TickOf(b, w, chain, key, finalizes, after) ==
          Idle(aimed.(at := at, specSkew := if aimed.specSkew == U32_MAX then U32_MAX else aimed.specSkew + 1))
  {
    AimedStarts(b, w, chain);
    hide Aimed, StartingAt, PinnedAt, VoteAndCount;
  }
}
