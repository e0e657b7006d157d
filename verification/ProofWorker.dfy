/** The proof distributor of a node: it caches one received finality proof, finalises a block only on a
    proof it has verified against its own chain, and keeps the watermark of its gossip. */
module ProofWorker {
  import opened Bytes
  import opened Quorum
  import opened FinalityProof
  import opened FinalityWorker
  import opened FinalityRun
  import opened Numerals

  /** A proof as received, with the height and hash its header claims. */
  datatype Received = Received(height: U64, hash: Digest, bytes: ByteString)

  /** The proof waiting for its block, and the height below which messages are ignored. */
  datatype Cache = Cache(pending: Option<Received>, watermark: nat)

  /** What can happen to the worker, with the chain it sees and the answer `finalize_block` would give. */
  datatype Move =
    | Timer(chain: Chain, accepts: bool)
    | Message(chain: Chain, accepts: bool, bytes: ByteString)

  function HeaderOf(message: ByteString): Option<Received> {
    if |message| < PROOF_HEADER then None else Some(Received(HeightIn(message), message[8..40], message))
  }

  /** The proof stands for our own block at its height. */
  predicate Proven(s: Setting, chain: Chain, p: Received) requires s.build.cadence.Valid() {
    var h := Truncated(p.height);
    h in chain.blocks && chain.blocks[h] == p.hash && Reception(s, chain, p.height, p.hash, p.bytes) == Accepted
  }

  predicate Final(chain: Chain, p: Received) { p.height <= chain.finalized }

  predicate Finalises(s: Setting, chain: Chain, p: Received, accepts: bool) requires s.build.cadence.Valid() {
    !Final(chain, p) && Proven(s, chain, p) && accepts
  }

  function Higher(a: nat, b: nat): nat { if a < b then b else a }

  /** Block numbers have 32 bits, claimed heights 64. */
  predicate Fits(p: Received) { p.height <= U32_MAX }

  /** `finalized` is the client's finalised number afterwards. */
  datatype Application = Application(applied: bool, finalized: nat, watermark: nat)

  /** Applies a proof: nothing to do at or below the finalised height; above it, a proven block is
      finalised if the client agrees. */
  function TryApply(s: Setting, chain: Chain, watermark: nat, p: Received, accepts: bool): Application
    requires s.build.cadence.Valid()
  {
    if Final(chain, p) then Application(true, chain.finalized, chain.finalized)
    else if Finalises(s, chain, p, accepts) then Application(true, Higher(chain.finalized, Truncated(p.height)), p.height)
    else Application(false, chain.finalized, watermark)
  }

  /** The timer: follow local finality, and try the cached proof again. */
  function Retried(s: Setting, c: Cache, chain: Chain, accepts: bool): (Cache, nat) requires s.build.cadence.Valid() {
    var watermark := Higher(c.watermark, chain.finalized);
    match c.pending
    case None => (Cache(None, watermark), chain.finalized)
    case Some(p) =>
      var a := TryApply(s, chain, watermark, p, accepts);
      (Cache(if a.applied || p.height <= a.finalized then None else c.pending, a.watermark), a.finalized)
  }

  /** The message that gets past the watermark. */
  function Admitted(c: Cache, bytes: ByteString): Option<Received> {
    var header := HeaderOf(bytes);
    if header.Some? && header.value.height > c.watermark then header else None
  }

  /** The cache with one more proof: the higher of the two, the older of equals. */
  function Keep(pending: Option<Received>, p: Received): Option<Received> {
    if pending.None? || p.height > pending.value.height then Some(p) else pending
  }

  /** A message: cache it if it is above what is cached, and try it at once. */
  function Notified(s: Setting, c: Cache, chain: Chain, accepts: bool, bytes: ByteString): (Cache, nat)
    requires s.build.cadence.Valid()
  {
    match Admitted(c, bytes)
    case None => (c, chain.finalized)
    case Some(p) =>
      var a := TryApply(s, chain, c.watermark, p, accepts);
      (Cache(if a.applied then None else Keep(c.pending, p), a.watermark), a.finalized)
  }

  class ProofWorker {
    const setting: Setting
    var pending: Option<Received>
    var watermark: nat

    ghost function State(): Cache reads this { Cache(pending, watermark) }

    constructor (s: Setting, chain: Chain)
      ensures setting == s && State() == Cache(None, chain.finalized)
    {
      setting := s;
      pending, watermark := None, chain.finalized;
    }

    method Apply(chain: Chain, p: Received, accepts: bool) returns (applied: bool, finalized: nat)
      requires setting.build.cadence.Valid()
      modifies this`watermark
      ensures Application(applied, finalized, watermark) == TryApply(setting, chain, old(watermark), p, accepts)
    {
      finalized := chain.finalized;
      if p.height <= chain.finalized {
        watermark := chain.finalized;
        return true, finalized;
      }
      var h := Truncated(p.height);
      if h !in chain.blocks || chain.blocks[h] != p.hash { return false, finalized; }
      var at := PinnedAt(setting.build.cadence, chain, h);
      var committee := CommitteeFor(setting.build.cadence, chain, h, at);
      var verdict := VerifyProof(
        setting.build.scheme, setting.build.domain, p.hash, p.height, p.bytes, committee, chain.delegationAt(at));
      if verdict != Accepted || !accepts { return false, finalized; }
      watermark := p.height;
      finalized := if finalized < h then h else finalized;
      return true, finalized;
    }

    method OnTimer(chain: Chain, accepts: bool) returns (finalized: nat)
      requires setting.build.cadence.Valid()
      modifies this
      ensures (State(), finalized) == Retried(setting, old(State()), chain, accepts)
    {
      if watermark < chain.finalized { watermark := chain.finalized; }
      finalized := chain.finalized;
      if pending.Some? {
        var applied;
        var height := pending.value.height;
        applied, finalized := Apply(chain, pending.value, accepts);
        if applied {
          pending := None;
        } else if height <= finalized {
          pending := None;
        }
      }
    }

    method OnMessage(chain: Chain, accepts: bool, bytes: ByteString) returns (finalized: nat)
      requires setting.build.cadence.Valid()
      modifies this
      ensures (State(), finalized) == Notified(setting, old(State()), chain, accepts, bytes)
    {
      finalized := chain.finalized;
      var header := HeaderOf(bytes);
      if header.Some? && header.value.height > watermark {
        var p := header.value;
        if pending.None? || p.height > pending.value.height { pending := Some(p); }
        var applied;
        applied, finalized := Apply(chain, p, accepts);
        if applied { pending := None; }
      }
    }
  }

  // ---------------------------------------------------------------- one move

  function After(s: Setting, c: Cache, m: Move): (Cache, nat) requires s.build.cadence.Valid() {
    match m
    case Timer(chain, accepts) => Retried(s, c, chain, accepts)
    case Message(chain, accepts, bytes) => Notified(s, c, chain, accepts, bytes)
  }

  /** The proof a move looks at: the cached one, or the message if it is admitted. */
  function Tried(c: Cache, m: Move): Option<Received> {
    match m
    case Timer(_, _) => c.pending
    case Message(_, _, bytes) => Admitted(c, bytes)
  }

  /** The proof by which a move finalises. */
  function Applied(s: Setting, c: Cache, m: Move): Option<Received> requires s.build.cadence.Valid() {
    var tried := Tried(c, m);
    if tried.Some? && Finalises(s, m.chain, tried.value, m.accepts) then tried else None
  }

  /** A move empties the cache: its proof was final already, or is now. */
  predicate Empties(s: Setting, c: Cache, m: Move) requires s.build.cadence.Valid() {
    var tried := Tried(c, m);
    tried.Some? && (Final(m.chain, tried.value) || Finalises(s, m.chain, tried.value, m.accepts))
  }

  /** The timer must find the cached proof neither final nor applicable; an admitted message must not be
      higher, and must itself be neither final nor applicable. */
  predicate Spares(s: Setting, c: Cache, m: Move, p: Received) requires s.build.cadence.Valid() {
    match m
    case Timer(chain, accepts) => p.height > chain.finalized && !(Proven(s, chain, p) && accepts)
    case Message(chain, accepts, bytes) =>
      Admitted(c, bytes).Some? ==>
        var q := Admitted(c, bytes).value;
        q.height <= p.height && q.height > chain.finalized && !(Proven(s, chain, q) && accepts)
  }

  /** Exactly when a cached proof survives a move. */
  lemma SurvivesExactly(s: Setting, c: Cache, m: Move, p: Received)
    requires s.build.cadence.Valid() && c.pending == Some(p)
    ensures After(s, c, m).0.pending == Some(p) <==> Spares(s, c, m, p)
  {
    hide Proven, Admitted, Truncated;
  }

  /** The watermark stays within finality exactly unless a proven height does not fit a block number. */
  lemma WatermarkWithinFinality(s: Setting, c: Cache, m: Move)
    requires s.build.cadence.Valid() && c.watermark <= m.chain.finalized
    ensures After(s, c, m).1 >= m.chain.finalized
    ensures After(s, c, m).0.watermark <= After(s, c, m).1 <==> (Applied(s, c, m).Some? ==> Fits(Applied(s, c, m).value))
    ensures After(s, c, m).0.watermark >= c.watermark
    ensures m.Timer? ==> (After(s, c, m).0.watermark == After(s, c, m).1 <==> (Applied(s, c, m).Some? ==> Fits(Applied(s, c, m).value)))
  {
    hide Proven, HeaderOf;
  }

  /** What a message says: eight bytes of height, least significant first, the hash, and two bytes or more. At or below
      the watermark it changes nothing, and neither does anything shorter. */
  lemma MessageRead(s: Setting, c: Cache, chain: Chain, accepts: bool, height: U64, hash: Digest, rest: ByteString)
    requires s.build.cadence.Valid() && |rest| >= 2
    ensures var bytes := LittleEndian(height, 8) + hash + rest;
      if height <= c.watermark then Notified(s, c, chain, accepts, bytes) == (c, chain.finalized)
      else Admitted(c, bytes) == Some(Received(height, hash, bytes))
    ensures |rest| < 42 ==> Notified(s, c, chain, accepts, rest) == (c, chain.finalized)
  {
    var bytes := LittleEndian(height, 8) + hash + rest;
    LittleEndianRoundTrip(height, 8);
    assert bytes[0..8] == LittleEndian(height, 8) && bytes[8..40] == hash;
    assert HeaderOf(bytes) == Some(Received(height, hash, bytes));
    hide HeightIn, TryApply, Keep;
  }

  // ---------------------------------------------------------------- runs

  ghost predicate Passes(s: Setting, a: Cache, m: Move, b: Cache) requires s.build.cadence.Valid() {
    b == After(s, a, m).0
  }

  /** A run of the worker from an empty cache, under any messages and any views of the chain. */
  ghost predicate Works(s: Setting, caches: seq<Cache>, moves: seq<Move>) requires s.build.cadence.Valid() {
    && |caches| == |moves| + 1 && caches[0].pending == None
    && forall i | 0 <= i < |moves| :: Passes(s, caches[i], moves[i], caches[i + 1])
  }

  /** The admitted proofs since the cache was last emptied. */
  ghost function Recent(s: Setting, caches: seq<Cache>, moves: seq<Move>, n: nat): seq<Received>
    requires s.build.cadence.Valid() && n <= |moves| < |caches|
  {
    if n == 0 then []
    else
      var c, m := caches[n - 1], moves[n - 1];
      if Empties(s, c, m) then []
      else Recent(s, caches, moves, n - 1) + if m.Message? && Tried(c, m).Some? then [Tried(c, m).value] else []
  }

  /** The first of the highest. */
  function Highest(ps: seq<Received>): (r: Option<Received>)
    ensures r.None? <==> ps == []
    ensures r.Some? ==> r.value in ps && forall p | p in ps :: p.height <= r.value.height
  {
    if ps == [] then None else Keep(Highest(ps[..|ps| - 1]), ps[|ps| - 1])
  }

  lemma HighestOneMore(ps: seq<Received>, p: Received)
    ensures Highest(ps + [p]) == Keep(Highest(ps), p)
  {
    assert (ps + [p])[..|ps|] == ps;
  }

  lemma PendingAfter(s: Setting, c: Cache, m: Move)
    requires s.build.cadence.Valid()
    ensures After(s, c, m).0.pending ==
      if Empties(s, c, m) then None
      else if m.Message? && Tried(c, m).Some? then Keep(c.pending, Tried(c, m).value) else c.pending
  {
    hide Proven, Admitted, Truncated;
  }

  /** At every moment of every run the cache holds the highest of the proofs admitted since it was last
      emptied. */
  lemma {:induction false} CacheHoldsHighest(s: Setting, caches: seq<Cache>, moves: seq<Move>, n: nat)
    requires s.build.cadence.Valid() && Works(s, caches, moves) && n <= |moves|
    ensures caches[n].pending == Highest(Recent(s, caches, moves, n))
  {
    if n == 0 {
      assert Recent(s, caches, moves, n) == [];
    } else {
      CacheHoldsHighest(s, caches, moves, n - 1);
      assert Passes(s, caches[n - 1], moves[n - 1], caches[n]);
      RecentAfter(s, caches, moves, n);
    }
  }

  lemma RecentAfter(s: Setting, caches: seq<Cache>, moves: seq<Move>, n: nat)
    requires s.build.cadence.Valid() && 0 < n <= |moves| < |caches| && Passes(s, caches[n - 1], moves[n - 1], caches[n])
    requires caches[n - 1].pending == Highest(Recent(s, caches, moves, n - 1))
    ensures caches[n].pending == Highest(Recent(s, caches, moves, n))
  {
    var c, m, before := caches[n - 1], moves[n - 1], Recent(s, caches, moves, n - 1);
    PendingAfter(s, c, m);
    hide After, Empties, Tried, Keep, Highest;
    if Empties(s, c, m) {
      assert Recent(s, caches, moves, n) == [];
    } else if m.Message? && Tried(c, m).Some? {
      HighestOneMore(before, Tried(c, m).value);
      assert Recent(s, caches, moves, n) == before + [Tried(c, m).value];
    } else {
      assert Recent(s, caches, moves, n) == before;
    }
  }

  /** Over every run: a cached proof is held throughout if and only if every move spares it. */
  lemma {:induction false} HeldThroughout(s: Setting, caches: seq<Cache>, moves: seq<Move>, i: nat, n: nat, p: Received)
    requires s.build.cadence.Valid() && Works(s, caches, moves) && i <= n <= |moves| && caches[i].pending == Some(p)
    ensures (forall j | i <= j <= n :: caches[j].pending == Some(p))
       <==> (forall j | i <= j < n :: Spares(s, caches[j], moves[j], p))
    decreases n - i
  {
    if i < n {
      HeldThroughout(s, caches, moves, i, n - 1, p);
      assert Passes(s, caches[n - 1], moves[n - 1], caches[n]);
      if caches[n - 1].pending == Some(p) { SurvivesExactly(s, caches[n - 1], moves[n - 1], p); }
      hide Spares, Works, After;
    }
  }

  /** The gap between a proof and its block closes on the timer exactly for that proof: one that stands by
      then is applied if and only if it is the highest heard since the cache was last emptied. */
  lemma GapClosesExactly(s: Setting, caches: seq<Cache>, moves: seq<Move>, n: nat, p: Received)
    requires s.build.cadence.Valid() && Works(s, caches, moves) && n < |moves| && moves[n].Timer?
    requires Finalises(s, moves[n].chain, p, moves[n].accepts)
    ensures Applied(s, caches[n], moves[n]) == Some(p) <==> Highest(Recent(s, caches, moves, n)) == Some(p)
  {
    CacheHoldsHighest(s, caches, moves, n);
  }

  /** Whatever is finalised was heard: it is the header of a message received by then, proven against the
      chain of that moment. */
  ghost predicate HeardBy(moves: seq<Move>, n: nat, p: Received) requires n <= |moves| {
    exists i | 0 <= i < n :: moves[i].Message? && HeaderOf(moves[i].bytes) == Some(p)
  }

  lemma {:induction false} PendingWasHeard(s: Setting, caches: seq<Cache>, moves: seq<Move>, n: nat)
    requires s.build.cadence.Valid() && Works(s, caches, moves) && n <= |moves|
    ensures caches[n].pending.Some? ==> HeardBy(moves, n, caches[n].pending.value)
  {
    if n > 0 {
      PendingWasHeard(s, caches, moves, n - 1);
      var c, m := caches[n - 1], moves[n - 1];
      assert Passes(s, c, m, caches[n]);
      hide Proven, HeaderOf, Works;
      if m.Message? && Admitted(c, m.bytes).Some? { assert HeaderOf(moves[n - 1].bytes) == Admitted(c, m.bytes); }
    }
  }

  /** Over every run: finality moves only on a heard proof that proves our own block above it, and then to
      that block. */
  lemma FinalisesOnlyProven(s: Setting, caches: seq<Cache>, moves: seq<Move>, n: nat)
    requires s.build.cadence.Valid() && Works(s, caches, moves) && n < |moves|
    ensures var chain, finalized, p := moves[n].chain, After(s, caches[n], moves[n]).1, Applied(s, caches[n], moves[n]);
      && (p.None? ==> finalized == chain.finalized)
      && (p.Some? ==>
            && HeardBy(moves, n + 1, p.value) && p.value.height > chain.finalized && Proven(s, chain, p.value)
            && Truncated(p.value.height) in chain.blocks && chain.blocks[Truncated(p.value.height)] == p.value.hash
            && (Fits(p.value) ==> finalized == p.value.height))
  {
    PendingWasHeard(s, caches, moves, n);
    var c, m := caches[n], moves[n];
    hide Proven, HeaderOf, Works;
    if m.Message? && Admitted(c, m.bytes).Some? { assert HeaderOf(moves[n].bytes) == Admitted(c, m.bytes); }
  }

  /** Each view of the chain has at least what this worker had finalised by then. */
  ghost predicate Follows(s: Setting, caches: seq<Cache>, moves: seq<Move>)
    requires s.build.cadence.Valid() && |caches| == |moves| + 1
  {
    && (moves != [] ==> caches[0].watermark <= moves[0].chain.finalized)
    && forall i | 0 < i < |moves| :: After(s, caches[i - 1], moves[i - 1]).1 <= moves[i].chain.finalized
  }

  ghost predicate AppliedFit(s: Setting, caches: seq<Cache>, moves: seq<Move>)
    requires s.build.cadence.Valid() && |caches| == |moves| + 1
  {
    forall i | 0 <= i < |moves| :: Applied(s, caches[i], moves[i]).Some? ==> Fits(Applied(s, caches[i], moves[i]).value)
  }

  /** Over every run the watermark never goes back and stays within finality. */
  lemma {:induction false} WatermarkRises(s: Setting, caches: seq<Cache>, moves: seq<Move>, n: nat)
    requires s.build.cadence.Valid() && Works(s, caches, moves) && Follows(s, caches, moves) && AppliedFit(s, caches, moves)
    requires n < |moves|
    ensures caches[n].watermark <= caches[n + 1].watermark <= After(s, caches[n], moves[n]).1
  {
    if n > 0 { WatermarkRises(s, caches, moves, n - 1); }
    assert Passes(s, caches[n], moves[n], caches[n + 1]);
    WatermarkWithinFinality(s, caches[n], moves[n]);
  }

  /** What the worker finalises is an import of the network's runs, trusted if its chain is coherent: the
      safety of `FinalityRun` covers it. */
  lemma AppliesAsImport(s: Setting, sys: System, node: nat, chain: Chain, p: Received, accepts: bool)
    requires s.build.cadence.Valid() && Finalises(s, chain, p, accepts) && Coherent(s, chain)
    ensures var e := Import(node, chain, p.height, p.hash, p.bytes, true);
      && Enabled(sys, e) && Trusted(s, sys, e)
      && exists c :: c in Step(s, sys, e).finalised && c.Imported? && c.node == node && c.number == p.height && c.hash == p.hash
  {
    ReceptionReads(s, chain, p.height, p.hash, p.bytes);
    PinnedSeesEpoch(s, chain, Truncated(p.height));
    hide Coherent, Pinned, Reception, ProofVoices, VotesIn;
    var c := Imported(node, p.height, p.hash, ProofVoices(s, p.height, p.bytes));
    assert c in Step(s, sys, Import(node, chain, p.height, p.hash, p.bytes, true)).finalised;
  }

  // ---------------------------------------------------------------- headers that no proof stands behind

  /** A header alone, of a height beyond every block number and the largest there is. */
  predicate Unreachable(p: Received) {
    |p.bytes| == PROOF_HEADER && p.height == 0xFFFF_FFFF_FFFF_FFFF
  }

  lemma UnreachableNeverProven(s: Setting, chain: Chain, p: Received)
    requires s.build.cadence.Valid() && Unreachable(p)
    ensures !Proven(s, chain, p) && !Final(chain, p)
  {
    if |p.bytes| == PROOF_HEADER + CountIn(p.bytes) * PROOF_VOTE { assert VotesIn(p.bytes) == []; }
  }

  lemma UnreachableSpared(s: Setting, c: Cache, m: Move, p: Received)
    requires s.build.cadence.Valid() && Unreachable(p) && c.pending == Some(p)
    ensures Spares(s, c, m, p) <==> !(m.Message? && Empties(s, c, m))
  {
    UnreachableNeverProven(s, m.chain, p);
    hide Proven;
  }

  /** Headers are cached unverified. Once an unreachable one is in, it stays exactly until some message is
      final already or applied on arrival: neither finality nor any waiting proof dislodges it. */
  lemma UnreachableStays(s: Setting, caches: seq<Cache>, moves: seq<Move>, i: nat, n: nat, p: Received)
    requires s.build.cadence.Valid() && Works(s, caches, moves) && i <= n <= |moves|
    requires caches[i].pending == Some(p) && Unreachable(p)
    ensures (forall j | i <= j <= n :: caches[j].pending == Some(p))
       <==> (forall j | i <= j < n :: !(moves[j].Message? && Empties(s, caches[j], moves[j])))
    decreases n - i
  {
    if i < n {
      UnreachableStays(s, caches, moves, i, n - 1, p);
      HeldThroughout(s, caches, moves, i, n, p);
      HeldThroughout(s, caches, moves, i, n - 1, p);
      if caches[n - 1].pending == Some(p) { UnreachableSpared(s, caches[n - 1], moves[n - 1], p); }
      hide Spares, Works, Empties, Unreachable;
    }
  }

  lemma SparedMoveIsIdle(s: Setting, c: Cache, m: Move, p: Received)
    requires s.build.cadence.Valid() && c.pending == Some(p) && Unreachable(p) && !(m.Message? && Empties(s, c, m))
    ensures Applied(s, c, m) == None && After(s, c, m).1 == m.chain.finalized
  {
    UnreachableNeverProven(s, m.chain, p);
    hide Proven;
  }

  /** And while it stays nothing is finalised here, on the timer or otherwise: no proof that came before its
      block is ever applied, until one is heard when its block is there. */
  lemma UnreachableStarves(s: Setting, caches: seq<Cache>, moves: seq<Move>, i: nat, n: nat, p: Received)
    requires s.build.cadence.Valid() && Works(s, caches, moves) && i <= n <= |moves|
    requires caches[i].pending == Some(p) && Unreachable(p)
    requires forall j | i <= j < n :: !(moves[j].Message? && Empties(s, caches[j], moves[j]))
    ensures forall j | i <= j < n ::
      Applied(s, caches[j], moves[j]) == None && After(s, caches[j], moves[j]).1 == moves[j].chain.finalized
  {
    UnreachableStays(s, caches, moves, i, n, p);
    hide Applied, After, Empties, Unreachable, Works;
    forall j | i <= j < n
      ensures Applied(s, caches[j], moves[j]) == None && After(s, caches[j], moves[j]).1 == moves[j].chain.finalized
    {
      SparedMoveIsIdle(s, caches[j], moves[j], p);
    }
  }
}
