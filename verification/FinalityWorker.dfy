/** The finality worker: what one timer tick and one received message do to its state. Client reads
    come in as a `Chain` snapshot; the outcome of `finalize_block` and the snapshot after it are inputs. */
module FinalityWorker {
  import opened Bytes
  import opened Quorum
  import opened Voting
  import opened FinalityProof

  type U32 = n: int | 0 <= n < 0x1_0000_0000
  const U32_MAX: U32 := 0xFFFF_FFFF

  datatype Cadence = Cadence(beta: nat, step: U32, burial: U32, epochLength: U32)
  {
    predicate Valid() { step > 0 && epochLength > 0 }
  }

  const TESTNET := Cadence(4, 8, 15, 10)

  /** What the binary is built for and which chain it follows. */
  datatype Build = Build(cadence: Cadence, spec: U32, scheme: Scheme, domain: Domain)

  /** The client's answers during one tick; an API error is `None`. */
  datatype Chain = Chain(
    finalized: U32, best: U32, bestHash: Digest, blocks: map<U32, Digest>,
    committeeAt: (nat, Digest) -> set<ByteString>,
    delegationAt: Digest -> map<ByteString, ByteString>,
    specAt: Digest -> Option<U32>,
    haltedAt: Digest -> Option<bool>
  )

  datatype VoteKey = VoteKey(signer: Digest, sign: ByteString -> Signature)

  datatype WorkerState = WorkerState(
    height: U32, at: Digest, committee: set<ByteString>, delegation: map<ByteString, ByteString>,
    votes: map<ByteString, Vote>, ballot: Ballot<Digest>, belowQuorum: U32, specSkew: U32
  )

  datatype Attempt = Attempt(height: U32, hash: Digest, proof: ByteString)

  const ZERO_HASH: Digest := Zeros(32)

  function EpochOf(c: Cadence, height: U32): U32 requires c.Valid() { height / c.epochLength }

  function EpochStart(c: Cadence, height: U32): int requires c.Valid() { EpochOf(c, height) * c.epochLength }

  /** The node has the block at which the height's epoch state is read. */
  predicate Pinned(c: Cadence, chain: Chain, height: U32) requires c.Valid() { EpochStart(c, height) in chain.blocks }

  /** The block a height's epoch state is read at: the epoch's first, or for want of it the best block. */
  function PinnedAt(c: Cadence, chain: Chain, height: U32): Digest requires c.Valid() {
    if Pinned(c, chain, height) then chain.blocks[EpochStart(c, height)] else chain.bestHash
  }

  function CommitteeFor(c: Cadence, chain: Chain, height: U32, at: Digest): set<ByteString> requires c.Valid() {
    chain.committeeAt(EpochOf(c, height), at)
  }

  /** The preferred hash at a height, and whether the chain has a block there yet. */
  function TargetHash(chain: Chain, height: U32): (Digest, bool) {
    if chain.best < height || height !in chain.blocks then (ZERO_HASH, false) else (chain.blocks[height], true)
  }

  function Saturating(n: int): U32 requires n >= 0 { if n > U32_MAX then U32_MAX else n }

  /** Unsigned 32-bit addition as release builds perform it. */
  function Aim(c: Cadence, finalized: U32): U32 {
    var sum := finalized + c.step;
    if sum <= U32_MAX then sum else sum - 0x1_0000_0000
  }

  // ---------------------------------------------------------------- skipping a halted band

  predicate Healthy(c: Cadence, chain: Chain, h: U32) requires c.Valid() {
    var at := PinnedAt(c, chain, h);
    chain.haltedAt(at) == Some(false) && CommitteeFor(c, chain, h, at) != {}
  }

  predicate Buried(c: Cadence, chain: Chain, h: U32) { Saturating(h + c.burial) <= chain.best }

  /** The least buried healthy boundary at or after `h`, in steps. */
  function FirstHealthy(c: Cadence, chain: Chain, h: int): (r: Option<U32>)
    requires c.Valid() && 0 <= h
    ensures r.Some? ==> h <= r.value
    decreases U32_MAX + 1 - h
  {
    if h > U32_MAX || !Buried(c, chain, h) then None
    else if Healthy(c, chain, h) then Some(h)
    else FirstHealthy(c, chain, h + c.step)
  }

  method FirstHealthyBoundaryAfter(c: Cadence, chain: Chain, from: U32) returns (r: Option<U32>)
    requires c.Valid()
    ensures r == FirstHealthy(c, chain, from + c.step)
  {
    if from + c.step > U32_MAX { return None; }
    var h := from + c.step;
    while Saturating(h + c.burial) <= chain.best
      invariant 0 <= h <= U32_MAX
      invariant FirstHealthy(c, chain, from + c.step) == FirstHealthy(c, chain, h)
      decreases U32_MAX - h
    {
      var at := PinnedAt(c, chain, h);
      var halted := match chain.haltedAt(at) case None => true case Some(b) => b;
      if !halted && CommitteeFor(c, chain, h, at) != {} {
        return Some(h);
      }
      if h + c.step > U32_MAX { return None; }
      h := h + c.step;
    }
    return None;
  }

  /** Two nodes agree on the boundaries both have buried; above its own tip a node reads what it can. */
  ghost predicate SameHealth(c: Cadence, a: Chain, b: Chain) requires c.Valid() {
    forall h: U32 | Buried(c, a, h) && Buried(c, b, h) :: Healthy(c, a, h) == Healthy(c, b, h)
  }

  /** Nodes that agree on what both have buried answer the same boundary whenever both answer, and a node
      with a longer chain never loses an answer. */
  lemma {:induction false} SkipTargetAgrees(c: Cadence, a: Chain, b: Chain, h: int)
    requires c.Valid() && 0 <= h && SameHealth(c, a, b)
    ensures FirstHealthy(c, a, h).Some? && FirstHealthy(c, b, h).Some? ==> FirstHealthy(c, a, h) == FirstHealthy(c, b, h)
    ensures a.best <= b.best && FirstHealthy(c, a, h).Some? ==> FirstHealthy(c, b, h) == FirstHealthy(c, a, h)
    decreases U32_MAX + 1 - h
  {
    if h <= U32_MAX && Buried(c, a, h) && Buried(c, b, h) {
      SkipTargetAgrees(c, a, b, h + c.step);
    }
  }

  // ---------------------------------------------------------------- the tick as a function

  /** Re-target: fresh committee view, no votes, an undecided round. */
  function Retarget(b: Build, chain: Chain, w: WorkerState, height: U32): WorkerState requires b.cadence.Valid() {
    var at := PinnedAt(b.cadence, chain, height);
    w.(height := height, at := at, committee := CommitteeFor(b.cadence, chain, height, at),
       delegation := chain.delegationAt(at), votes := map[], belowQuorum := 0,
       ballot := Ballot(TargetHash(chain, height).0, 0, None))
  }

  /** The state of a process that has just started. */
  function Booted(b: Build, chain: Chain): WorkerState requires b.cadence.Valid() {
    Retarget(b, chain, WorkerState(0, ZERO_HASH, {}, map[], map[], Ballot(ZERO_HASH, 0, None), 0, 0), Aim(b.cadence, chain.finalized))
  }

  function OwnVote(b: Build, w: WorkerState, key: VoteKey, pref: Digest): Vote {
    Vote(w.height, pref, key.signer, key.sign(SignMessage(b.domain, w.height, pref)))
  }

  function KeepVote(w: WorkerState, v: Vote): WorkerState {
    var account := ResolveVoter(v.signer, w.delegation);
    if account in w.committee then w.(votes := w.votes[account := v]) else w
  }

  function RoundParams(b: Build, k: nat): Params { Params(k, Alpha(k), b.cadence.beta, 80) }

  ghost function Counted(b: Build, w: WorkerState): WorkerState {
    var k := |w.committee|;
    var reaches := |w.votes| * 10 >= k * 6;
    var lead := LeadingOf(Tally(Ascending(w.votes.Keys), w.votes));
    w.(belowQuorum := if reaches then 0 else Saturating(w.belowQuorum + 1),
       ballot := Advance(w.ballot, Round(lead, RoundParams(b, k), reaches)))
  }

  ghost function AttemptOf(w: WorkerState): Option<Attempt> {
    match w.ballot.decision
    case None => None
    case Some(x) => Some(Attempt(w.height, x, ProofOf(w.height, x, Carried(Selected(w.height, x, w.votes)))))
  }

  /** Everything a tick leaves behind: the state before any finalisation, the broadcast vote, the
      attempt to finalise, and the final state. */
  datatype Outcome = Outcome(counted: WorkerState, sent: Option<Vote>, attempt: Option<Attempt>, next: WorkerState)

  ghost function Idle(w: WorkerState): Outcome { Outcome(w, None, None, w) }

  ghost function VoteAndCount(b: Build, w: WorkerState, key: Option<VoteKey>, pref: Digest, finalizes: bool, after: Chain): Outcome
    requires b.cadence.Valid()
  {
    var sent := match key case None => None case Some(k) => Some(OwnVote(b, w, k, pref));
    var counted := Counted(b, if sent.Some? then KeepVote(w, sent.value) else w);
    var attempt := AttemptOf(counted);
    Outcome(counted, sent, attempt,
      if attempt.Some? && finalizes then Retarget(b, after, counted, Aim(b.cadence, after.finalized)) else counted)
  }

  function Aimed(b: Build, w: WorkerState, chain: Chain): WorkerState requires b.cadence.Valid() {
    if w.height <= chain.finalized then Retarget(b, chain, w, Aim(b.cadence, chain.finalized)) else w
  }

  function Retained(votes: map<ByteString, Vote>, committee: set<ByteString>): map<ByteString, Vote> {
    map a | a in votes && a in committee :: votes[a]
  }

  /** Refresh the committee view of the current height and drop the votes it no longer seats. */
  function Refreshed(b: Build, w: WorkerState, chain: Chain): WorkerState requires b.cadence.Valid() {
    var at := PinnedAt(b.cadence, chain, w.height);
    var committee := CommitteeFor(b.cadence, chain, w.height, at);
    w.(at := at, committee := committee, delegation := chain.delegationAt(at), specSkew := 0,
       votes := Retained(w.votes, committee))
  }

  function SkipOf(b: Build, w: WorkerState, chain: Chain): (WorkerState, Option<Digest>) requires b.cadence.Valid() {
    if chain.haltedAt(w.at) != Some(true) then (w, None)
    else match FirstHealthy(b.cadence, chain, w.height + b.cadence.step)
      case None => (w, None)
      case Some(h) =>
        var w' := Retarget(b, chain, w, h);
        (w', if TargetHash(chain, h).1 && |w'.committee| > 0 then Some(TargetHash(chain, h).0) else None)
  }

  /** The tick up to its vote: the state reached, and the hash to vote for unless the tick stops there. */
  function Prepared(b: Build, w: WorkerState, chain: Chain): (WorkerState, Option<Digest>)
    requires b.cadence.Valid()
  {
    var w1 := Aimed(b, w, chain);
    var target := TargetHash(chain, w1.height);
    if !target.1 then (w1, None)
    else
      var at := PinnedAt(b.cadence, chain, w1.height);
      if chain.specAt(at) != Some(b.spec) then (w1.(at := at, specSkew := Saturating(w1.specSkew + 1)), None)
      else
        var w2 := Refreshed(b, w1, chain);
        if |w2.committee| > 0 then (w2, Some(target.0)) else SkipOf(b, w2, chain)
  }

  ghost function TickOf(b: Build, w: WorkerState, chain: Chain, key: Option<VoteKey>, finalizes: bool, after: Chain): Outcome
    requires b.cadence.Valid()
  {
    var p := Prepared(b, w, chain);
    if p.1.None? then Idle(p.0) else VoteAndCount(b, p.0, key, p.1.value, finalizes, after)
  }

  function ReceiveOf(b: Build, w: WorkerState, message: ByteString): WorkerState {
    if DecodeVote(message).Some? && Countable(b, w, DecodeVote(message).value)
    then KeepVote(w, DecodeVote(message).value)
    else w
  }

  predicate Countable(b: Build, w: WorkerState, v: Vote) {
    v.height == w.height && VerifySig(b.scheme, b.domain, v)
  }

  // ---------------------------------------------------------------- the worker

  class Worker {
    const build: Build
    var height: U32
    var at: Digest
    var committee: set<ByteString>
    var delegation: map<ByteString, ByteString>
    var votes: map<ByteString, Vote>
    var round: FinalityRound
    var belowQuorum: U32
    var specSkew: U32

    ghost function State(): WorkerState reads this, round {
      WorkerState(height, at, committee, delegation, votes, round.State(), belowQuorum, specSkew)
    }

    constructor (b: Build, chain: Chain)
      requires b.cadence.Valid()
      ensures build == b && fresh(round)
      ensures State() == Booted(b, chain)
    {
      build := b;
      var target := Aim(b.cadence, chain.finalized);
      var pinned := PinnedAt(b.cadence, chain, target);
      height, at := target, pinned;
      committee := CommitteeFor(b.cadence, chain, target, pinned);
      delegation := chain.delegationAt(pinned);
      votes, belowQuorum, specSkew := map[], 0, 0;
      round := new FinalityRound(TargetHash(chain, target).0);
    }

    method AimAt(chain: Chain, target: U32)
      requires build.cadence.Valid()
      modifies this
      ensures fresh(round) && State() == Retarget(build, chain, old(State()), target)
    {
      height := target;
      at := PinnedAt(build.cadence, chain, height);
      committee := CommitteeFor(build.cadence, chain, height, at);
      delegation := chain.delegationAt(at);
      belowQuorum := 0;
      votes := map[];
      round := new FinalityRound(TargetHash(chain, height).0);
    }

    method Cast(key: Option<VoteKey>, pref: Digest) returns (sent: Option<Vote>)
      modifies this
      ensures sent == (match key case None => None case Some(k) => Some(OwnVote(build, old(State()), k, pref)))
      ensures round == old(round)
      ensures State() == if sent.Some? then KeepVote(old(State()), sent.value) else old(State())
    {
      sent := None;
      if key.Some? {
        var v := Vote(height, pref, key.value.signer, key.value.sign(SignMessage(build.domain, height, pref)));
        sent := Some(v);
        var account := ResolveVoter(v.signer, delegation);
        if account in committee { votes := votes[account := v]; }
      }
    }

    method Count() returns (decided: Option<Digest>)
      modifies this, round
      ensures round == old(round) && State() == Counted(build, old(State()))
      ensures decided == State().ballot.decision
    {
      var k := |committee|;
      var tally := Tally(Ascending(votes.Keys), votes);
      var reaches := |votes| * 10 >= k * 6;
      if !reaches {
        belowQuorum := Saturating(belowQuorum + 1);
      } else {
        belowQuorum := 0;
      }
      var fired := round.ObserveRound(tally, RoundParams(build, k), reaches);
      decided := if fired.Some? then fired else round.decision;
    }

    method CastAndTally(key: Option<VoteKey>, pref: Digest, finalizes: bool, after: Chain)
      returns (sent: Option<Vote>, attempt: Option<Attempt>)
      requires build.cadence.Valid()
      modifies this, round
      ensures var o := VoteAndCount(build, old(State()), key, pref, finalizes, after);
        State() == o.next && sent == o.sent && attempt == o.attempt
      ensures round == old(round) || fresh(round)
    {
      sent := Cast(key, pref);
      var decided := Count();
      attempt := None;
      if decided.Some? {
        var proof := EncodeProof(height, decided.value, votes);
        attempt := Some(Attempt(height, decided.value, proof));
        if finalizes {
          AimAt(after, Aim(build.cadence, after.finalized));
        }
      }
    }

    method Refresh(chain: Chain)
      requires build.cadence.Valid()
      modifies this
      ensures round == old(round) && State() == Refreshed(build, old(State()), chain)
    {
      at := PinnedAt(build.cadence, chain, height);
      specSkew := 0;
      committee := CommitteeFor(build.cadence, chain, height, at);
      delegation := chain.delegationAt(at);
      votes := Retained(votes, committee);
    }

    /** Entrenchment halt: move the target past the frozen band, if a buried healthy boundary exists. */
    method SkipBand(chain: Chain) returns (pref: Option<Digest>)
      requires build.cadence.Valid()
      modifies this
      ensures round == old(round) || fresh(round)
      ensures var skip := SkipOf(build, old(State()), chain); State() == skip.0 && pref == skip.1
    {
      var halted := match chain.haltedAt(at) case None => false case Some(h) => h;
      if !halted { return None; }
      var healthy := FirstHealthyBoundaryAfter(build.cadence, chain, height);
      if healthy.None? { return None; }
      AimAt(chain, healthy.value);
      var (p, there) := TargetHash(chain, height);
      if !there || |committee| == 0 { return None; }
      return Some(p);
    }

    method Prepare(chain: Chain) returns (pref: Option<Digest>)
      requires build.cadence.Valid()
      modifies this
      ensures round == old(round) || fresh(round)
      ensures var p := Prepared(build, old(State()), chain); State() == p.0 && pref == p.1
    {
      if height <= chain.finalized {
        AimAt(chain, Aim(build.cadence, chain.finalized));
      }
      var (target, have) := TargetHash(chain, height);
      if !have { return None; }
      at := PinnedAt(build.cadence, chain, height);
      if chain.specAt(at) != Some(build.spec) {
        specSkew := Saturating(specSkew + 1);
        return None;
      }
      Refresh(chain);
      if |committee| == 0 {
        pref := SkipBand(chain);
        return;
      }
      return Some(target);
    }

    method Tick(chain: Chain, key: Option<VoteKey>, finalizes: bool, after: Chain)
      returns (sent: Option<Vote>, attempt: Option<Attempt>)
      requires build.cadence.Valid()
      modifies this, round
      ensures var o := TickOf(build, old(State()), chain, key, finalizes, after);
        State() == o.next && sent == o.sent && attempt == o.attempt
      ensures round == old(round) || fresh(round)
    {
      var pref := Prepare(chain);
      sent, attempt := None, None;
      if pref.Some? {
        sent, attempt := CastAndTally(key, pref.value, finalizes, after);
      }
    }

    method Receive(message: ByteString)
      modifies this
      ensures round == old(round) && State() == ReceiveOf(build, old(State()), message)
    {
      var decoded := DecodeVote(message);
      if decoded.Some? {
        var v := decoded.value;
        var account := ResolveVoter(v.signer, delegation);
        if v.height == height && VerifySig(build.scheme, build.domain, v) && account in committee {
          votes := votes[account := v];
        }
      }
    }
  }
}
