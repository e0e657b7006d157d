/** Signed finality votes, the justification that packs them, and the verifier every importer runs.
    Signature checking is a parameter: `scheme(signature, message, public key)`. */
module FinalityProof {
  import opened Bytes
  import opened Numerals
  import opened Quorum

  type U64 = n: int | 0 <= n < 0x1_0000_0000_0000_0000
  type Signature = s: seq<Byte> | |s| == 64 witness seq(64, _ => 0)
  type Scheme = (ByteString, ByteString, ByteString) -> bool

  /** A vote: `signer` prefers block `hash` at `height`. */
  datatype Vote = Vote(height: U64, hash: Digest, signer: Digest, sig: Signature)

  /** The chain a signature is bound to: build flavour (1 mainnet, 0 testnet) and genesis hash. */
  datatype Domain = Domain(flavour: Byte, genesis: Digest)

  const VOTE_DOMAIN_V2: ByteString := [104, 108, 113, 45, 102, 105, 110, 97, 108, 105, 116, 121, 58, 118, 50, 58]
  const LEGACY_VOTE_CUTOFF := 0
  const VOTE_LEN := 136
  const PROOF_HEADER := 42
  const PROOF_VOTE := 96
  const MAX_COUNT := 65535

  function SignMessage(d: Domain, height: U64, hash: Digest): ByteString {
    VOTE_DOMAIN_V2 + [d.flavour] + d.genesis + LittleEndian(height, 8) + hash
  }

  function LegacyMessage(height: U64, hash: Digest): ByteString {
    LittleEndian(height, 8) + hash
  }

  lemma U64RoundTrip(height: U64)
    ensures FromLittleEndian(LittleEndian(height, 8)) == height
  {
    assert Pow(256, 4) == 0x1_0000_0000;
    assert Pow(256, 8) == 0x1_0000_0000_0000_0000;
    LittleEndianRoundTrip(height, 8);
  }

  lemma SignFields(d: Domain, h: U64, x: Digest)
    ensures var m := SignMessage(d, h, x);
      |m| == 89 && m[16] == d.flavour && m[17..49] == d.genesis && FromLittleEndian(m[49..57]) == h && m[57..] == x
  {
    U64RoundTrip(h);
    var m := SignMessage(d, h, x);
    assert m[17..49] == d.genesis && m[49..57] == LittleEndian(h, 8) && m[57..] == x;
  }

  lemma LegacyFields(h: U64, x: Digest)
    ensures var l := LegacyMessage(h, x); |l| == 40 && FromLittleEndian(l[..8]) == h && l[8..] == x
  {
    U64RoundTrip(h);
    var l := LegacyMessage(h, x);
    assert l[..8] == LittleEndian(h, 8) && l[8..] == x;
  }

  /** Domain separation: one signed message stands for one flavour, genesis, height and hash, and is
      never a legacy message. */
  lemma SignedMessageBinds(d: Domain, h: U64, x: Digest, d': Domain, h': U64, x': Digest)
    ensures SignMessage(d, h, x) == SignMessage(d', h', x') ==> d == d' && h == h' && x == x'
    ensures SignMessage(d, h, x) != LegacyMessage(h', x')
    ensures LegacyMessage(h, x) == LegacyMessage(h', x') ==> h == h' && x == x'
  {
    SignFields(d, h, x);
    SignFields(d', h', x');
    LegacyFields(h, x);
    LegacyFields(h', x');
    hide SignMessage, LegacyMessage, FromLittleEndian;
  }

  /** The signed bytes, spelled out: what is signed says what it is for. */
  lemma SignedMessageSpelled(d: Domain, h: U64, x: Digest)
    ensures SignMessage(d, h, x) == Ascii("hlq-finality:v2:") + [d.flavour] + d.genesis + LittleEndian(h, 8) + x
  {
    assert VOTE_DOMAIN_V2 == Ascii("hlq-finality:v2:");
  }

  // ---------------------------------------------------------------- the vote on the wire

  function EncodeVote(v: Vote): ByteString {
    LittleEndian(v.height, 8) + v.hash + v.signer + v.sig
  }

  function DecodeVote(d: ByteString): Option<Vote> {
    if |d| != VOTE_LEN then None
    else
      FromLittleEndianRoundTrip(d[0..8]);
      assert Pow(256, 8) == 0x1_0000_0000_0000_0000;
      Some(Vote(FromLittleEndian(d[0..8]), d[8..40], d[40..72], d[72..136]))
  }

  lemma VoteFields(v: Vote)
    ensures var e := EncodeVote(v);
      e[0..8] == LittleEndian(v.height, 8) && e[8..40] == v.hash && e[40..72] == v.signer && e[72..136] == v.sig
  {}

  lemma VoteRebuilt(d: ByteString)
    requires |d| == VOTE_LEN
    ensures EncodeVote(DecodeVote(d).value) == d
  {
    FromLittleEndianRoundTrip(d[0..8]);
    assert d == d[0..8] + d[8..40] + d[40..72] + d[72..136];
  }

  /** Decoding is the exact inverse of encoding: each vote has one encoding and nothing else decodes. */
  lemma VoteCodec(v: Vote, d: ByteString)
    ensures DecodeVote(d) == Some(v) <==> d == EncodeVote(v)
  {
    if d == EncodeVote(v) {
      VoteFields(v);
      U64RoundTrip(v.height);
    }
    if |d| == VOTE_LEN { VoteRebuilt(d); }
  }

  predicate VerifySig(scheme: Scheme, d: Domain, v: Vote) {
    || scheme(v.sig, SignMessage(d, v.height, v.hash), v.signer)
    || (v.height <= LEGACY_VOTE_CUTOFF && scheme(v.sig, LegacyMessage(v.height, v.hash), v.signer))
  }

  /** Only at genesis does a signature without a domain stand. */
  lemma VerifiedExactly(scheme: Scheme, d: Domain, v: Vote)
    ensures VerifySig(scheme, d, v) <==>
      || scheme(v.sig, SignMessage(d, v.height, v.hash), v.signer)
      || (v.height == 0 && scheme(v.sig, LittleEndian(0, 8) + v.hash, v.signer))
  {
    hide SignMessage;
  }

  /** The messages a key has signed are votes of `used`, for what `cast` allows. */
  ghost predicate SignsOnly(scheme: Scheme, signer: Digest, used: Domain, cast: (U64, Digest) -> bool) {
    forall sig: Signature, m: ByteString | scheme(sig, m, signer) ::
      exists h: U64, x: Digest :: m == SignMessage(used, h, x) && cast(h, x)
  }

  /** NO REPLAY. Whatever bytes are put together, a vote of a key that signs votes of one chain only verifies for that
      chain, and for a height and hash that the key has signed. */
  lemma NoReplay(scheme: Scheme, d: Domain, v: Vote, used: Domain, cast: (U64, Digest) -> bool)
    requires SignsOnly(scheme, v.signer, used, cast) && VerifySig(scheme, d, v)
    ensures d == used && cast(v.height, v.hash)
  {
    hide SignMessage, LegacyMessage;
    forall h: U64, x: Digest ensures SignMessage(used, h, x) == SignMessage(d, v.height, v.hash) ==> d == used && h == v.height && x == v.hash
    {
      SignedMessageBinds(used, h, x, d, v.height, v.hash);
    }
    forall h: U64, x: Digest ensures SignMessage(used, h, x) != LegacyMessage(v.height, v.hash) {
      SignedMessageBinds(used, h, x, used, v.height, v.hash);
    }
  }

  /** The account a signer votes for: its delegator, or itself. */
  function ResolveVoter(signer: ByteString, delegation: map<ByteString, ByteString>): ByteString {
    if signer in delegation then delegation[signer] else signer
  }

  // ---------------------------------------------------------------- the proof

  /** The votes a proof is made of, in account order. */
  function Matching(order: seq<ByteString>, votes: map<ByteString, Vote>, height: U64, hash: Digest): (r: seq<Vote>)
    requires forall a | a in order :: a in votes
  {
    if order == [] then []
    else
      var v := votes[order[|order| - 1]];
      Matching(order[..|order| - 1], votes, height, hash) + if v.height == height && v.hash == hash then [v] else []
  }

  function Selected(height: U64, hash: Digest, votes: map<ByteString, Vote>): seq<Vote> {
    Matching(Ascending(votes.Keys), votes, height, hash)
  }

  function Packed(vs: seq<Vote>): (b: ByteString)
    ensures |b| == PROOF_VOTE * |vs|
  {
    if vs == [] then [] else Packed(vs[..|vs| - 1]) + vs[|vs| - 1].signer + vs[|vs| - 1].sig
  }

  function ProofOf(height: U64, hash: Digest, vs: seq<Vote>): ByteString {
    LittleEndian(height, 8) + hash + LittleEndian(|vs|, 2) + Packed(vs)
  }

  function Carried(vs: seq<Vote>): (r: seq<Vote>)
    ensures |r| <= MAX_COUNT
  {
    if |vs| <= MAX_COUNT then vs else vs[..MAX_COUNT]
  }

  method SelectMatching(height: U64, hash: Digest, votes: map<ByteString, Vote>) returns (selected: seq<Vote>)
    ensures selected == Selected(height, hash, votes)
  {
    var order := Ascending(votes.Keys);
    selected := [];
    for i := 0 to |order|
      invariant selected == Matching(order[..i], votes, height, hash)
    {
      assert order[..i + 1][..i] == order[..i];
      var v := votes[order[i]];
      if v.height == height && v.hash == hash { selected := selected + [v]; }
    }
    assert order[..|order|] == order;
  }

  method EncodeProof(height: U64, hash: Digest, votes: map<ByteString, Vote>) returns (b: ByteString)
    ensures b == ProofOf(height, hash, Carried(Selected(height, hash, votes)))
  {
    var selected := SelectMatching(height, hash, votes);
    var count := if |selected| <= MAX_COUNT then |selected| else MAX_COUNT;
    var header := LittleEndian(height, 8) + hash + LittleEndian(count, 2);
    var body: ByteString := [];
    for i := 0 to count
      invariant body == Packed(selected[..i])
    {
      assert selected[..i + 1][..i] == selected[..i];
      body := body + selected[i].signer + selected[i].sig;
    }
    assert selected[..count] == Carried(selected);
    b := header + body;
  }

  datatype Rejection = TooShort | HeightMismatch | HashMismatch | LengthMismatch | EmptyCommittee | InsufficientSignatures
  datatype Verdict = Accepted | Rejected(why: Rejection)

  function HeightIn(proof: ByteString): U64
    requires |proof| >= PROOF_HEADER
  {
    FromLittleEndianRoundTrip(proof[0..8]);
    assert Pow(256, 8) == 0x1_0000_0000_0000_0000;
    FromLittleEndian(proof[0..8])
  }

  function CountIn(proof: ByteString): nat
    requires |proof| >= PROOF_HEADER
  {
    FromLittleEndian(proof[40..42])
  }

  /** The `i`-th vote a proof carries. */
  function VoteIn(proof: ByteString, i: nat): Vote
    requires |proof| >= PROOF_HEADER + (i + 1) * PROOF_VOTE
  {
    var off := PROOF_HEADER + i * PROOF_VOTE;
    Vote(HeightIn(proof), proof[8..40], proof[off..off + 32], proof[off + 32..off + 96])
  }

  type Check = Vote -> bool

  function SigCheck(scheme: Scheme, d: Domain): Check { v => VerifySig(scheme, d, v) }

  /** The committee accounts for which one of the votes is a valid signature. */
  function Endorsers(
    valid: Check, vs: seq<Vote>, committee: set<ByteString>, delegation: map<ByteString, ByteString>
  ): (r: set<ByteString>)
    ensures r <= committee
    ensures forall a | a in r :: exists v :: v in vs && ResolveVoter(v.signer, delegation) == a && valid(v)
  {
    set v | v in vs && valid(v) && ResolveVoter(v.signer, delegation) in committee
      :: ResolveVoter(v.signer, delegation)
  }

  function VotesIn(proof: ByteString): seq<Vote>
    requires |proof| >= PROOF_HEADER && |proof| >= PROOF_HEADER + CountIn(proof) * PROOF_VOTE
  {
    seq(CountIn(proof), i requires 0 <= i < CountIn(proof) => VoteIn(proof, i))
  }

  function Judge(
    valid: Check, hash: Digest, number: U64, proof: ByteString,
    committee: set<ByteString>, delegation: map<ByteString, ByteString>
  ): Verdict {
    if |proof| < PROOF_HEADER then Rejected(TooShort)
    else if HeightIn(proof) != number then Rejected(HeightMismatch)
    else if proof[8..40] != hash then Rejected(HashMismatch)
    else if |proof| != PROOF_HEADER + CountIn(proof) * PROOF_VOTE then Rejected(LengthMismatch)
    else if committee == {} then Rejected(EmptyCommittee)
    else if |Endorsers(valid, VotesIn(proof), committee, delegation)| >= Alpha(|committee|) then Accepted
    else Rejected(InsufficientSignatures)
  }

  method VerifyProof(
    scheme: Scheme, d: Domain, hash: Digest, number: U64, proof: ByteString,
    committee: set<ByteString>, delegation: map<ByteString, ByteString>
  ) returns (verdict: Verdict)
    ensures verdict == Judge(SigCheck(scheme, d), hash, number, proof, committee, delegation)
  {
    if |proof| < PROOF_HEADER { return Rejected(TooShort); }
    var height, count := HeightIn(proof), CountIn(proof);
    if height != number { return Rejected(HeightMismatch); }
    if proof[8..40] != hash { return Rejected(HashMismatch); }
    if |proof| != PROOF_HEADER + count * PROOF_VOTE { return Rejected(LengthMismatch); }
    var k := |committee|;
    if k == 0 { return Rejected(EmptyCommittee); }
    var alpha := Alpha(k);
    var messageV2, messageLegacy := SignMessage(d, height, hash), LegacyMessage(height, hash);
    var seen: set<ByteString> := {};
    ghost var vs, valid := VotesIn(proof), SigCheck(scheme, d);
    for i := 0 to count
      invariant seen == Endorsers(valid, vs[..i], committee, delegation)
    {
      var v := VoteIn(proof, i);
      assert vs[..i + 1] == vs[..i] + [v];
      EndorsersGrow(valid, vs[..i], v, committee, delegation);
      var account := ResolveVoter(v.signer, delegation);
      if account !in committee { continue; }
      var ok := scheme(v.sig, messageV2, v.signer)
        || (height <= LEGACY_VOTE_CUTOFF && scheme(v.sig, messageLegacy, v.signer));
      if !ok { continue; }
      seen := seen + {account};
    }
    assert vs[..count] == vs;
    return if |seen| >= alpha then Accepted else Rejected(InsufficientSignatures);
  }

  lemma EndorsersGrow(
    valid: Check, vs: seq<Vote>, v: Vote, committee: set<ByteString>, delegation: map<ByteString, ByteString>
  )
    ensures var a := ResolveVoter(v.signer, delegation);
      Endorsers(valid, vs + [v], committee, delegation) == Endorsers(valid, vs, committee, delegation)
        + if valid(v) && a in committee then {a} else {}
  {
    assert forall u :: u in vs + [v] <==> u in vs || u == v;
  }

  /** What acceptance tells the importer. */
  lemma AcceptedMeans(
    valid: Check, hash: Digest, number: U64, proof: ByteString,
    committee: set<ByteString>, delegation: map<ByteString, ByteString>
  )
    requires Judge(valid, hash, number, proof, committee, delegation) == Accepted
    ensures |proof| >= PROOF_HEADER && |proof| == PROOF_HEADER + CountIn(proof) * PROOF_VOTE
    ensures forall v | v in VotesIn(proof) :: v.height == number && v.hash == hash
    ensures |Endorsers(valid, VotesIn(proof), committee, delegation)| >= Alpha(|committee|)
  {}

  // ---------------------------------------------------------------- round trip

  lemma {:induction false} PackedAt(vs: seq<Vote>, i: nat)
    requires i < |vs|
    ensures PROOF_VOTE * i + PROOF_VOTE <= |Packed(vs)|
    ensures Packed(vs)[PROOF_VOTE * i..PROOF_VOTE * i + 32] == vs[i].signer
    ensures Packed(vs)[PROOF_VOTE * i + 32..PROOF_VOTE * i + 96] == vs[i].sig
    decreases |vs|
  {
    var n := |vs| - 1;
    var init := Packed(vs[..n]);
    assert Packed(vs) == init + (vs[n].signer + vs[n].sig);
    if i < n {
      PackedAt(vs[..n], i);
      assert Packed(vs)[PROOF_VOTE * i..PROOF_VOTE * i + 32] == init[PROOF_VOTE * i..PROOF_VOTE * i + 32];
      assert Packed(vs)[PROOF_VOTE * i + 32..PROOF_VOTE * i + 96] == init[PROOF_VOTE * i + 32..PROOF_VOTE * i + 96];
    }
  }

  lemma HeaderReadsBack(height: U64, hash: Digest, vs: seq<Vote>)
    requires |vs| <= MAX_COUNT
    ensures var proof := ProofOf(height, hash, vs);
      && |proof| == PROOF_HEADER + |vs| * PROOF_VOTE
      && HeightIn(proof) == height && proof[8..40] == hash && CountIn(proof) == |vs| && proof[42..] == Packed(vs)
  {
    var proof := ProofOf(height, hash, vs);
    U64RoundTrip(height);
    assert Pow(256, 2) == 65536;
    LittleEndianRoundTrip(|vs|, 2);
    assert proof[0..8] == LittleEndian(height, 8);
    assert proof[40..42] == LittleEndian(|vs|, 2);
  }

  lemma SliceOfTail(s: ByteString, from: nat, i: nat, j: nat)
    requires i <= j && from + j <= |s|
    ensures s[from..][i..j] == s[from + i..from + j]
  {}

  lemma BodyReadsBack(proof: ByteString, vs: seq<Vote>, i: nat)
    requires |proof| == PROOF_HEADER + |vs| * PROOF_VOTE && proof[42..] == Packed(vs) && i < |vs|
    requires HeightIn(proof) == vs[i].height && proof[8..40] == vs[i].hash
    ensures VoteIn(proof, i) == vs[i]
  {
    PackedAt(vs, i);
    var off := PROOF_HEADER + i * PROOF_VOTE;
    SliceOfTail(proof, 42, PROOF_VOTE * i, PROOF_VOTE * i + 32);
    SliceOfTail(proof, 42, PROOF_VOTE * i + 32, PROOF_VOTE * i + 96);
  }

  /** The header and every vote can be read back from a proof. */
  lemma ProofReadsBack(height: U64, hash: Digest, vs: seq<Vote>)
    requires |vs| <= MAX_COUNT
    requires forall v | v in vs :: v.height == height && v.hash == hash
    ensures var proof := ProofOf(height, hash, vs);
      && |proof| == PROOF_HEADER + |vs| * PROOF_VOTE
      && HeightIn(proof) == height && proof[8..40] == hash && CountIn(proof) == |vs| && VotesIn(proof) == vs
  {
    HeaderReadsBack(height, hash, vs);
    var proof := ProofOf(height, hash, vs);
    forall i: nat | i < |vs| ensures VoteIn(proof, i) == vs[i] {
      assert vs[i] in vs;
      BodyReadsBack(proof, vs, i);
    }
  }

  /** The second reader of the layout: the participation record's decoder. */
  method DecodeProofVotes(proof: ByteString) returns (r: Option<seq<Vote>>)
    ensures r.Some? <==> |proof| >= PROOF_HEADER && |proof| >= PROOF_HEADER + CountIn(proof) * PROOF_VOTE
    ensures r.Some? ==> r.value == VotesIn(proof)
  {
    if |proof| < PROOF_HEADER { return None; }
    var count := CountIn(proof);
    if |proof| < PROOF_HEADER + count * PROOF_VOTE { return None; }
    var votes: seq<Vote> := [];
    for i := 0 to count
      invariant votes == VotesIn(proof)[..i]
    {
      assert VotesIn(proof)[..i + 1] == VotesIn(proof)[..i] + [VoteIn(proof, i)];
      votes := votes + [VoteIn(proof, i)];
    }
    return Some(votes);
  }

  // ---------------------------------------------------------------- completeness

  /** What a worker keeps per committee account: that account's own valid vote at this height. */
  ghost predicate Held(
    valid: Check, height: U64, committee: set<ByteString>, delegation: map<ByteString, ByteString>,
    votes: map<ByteString, Vote>
  ) {
    forall a | a in votes ::
      && a in committee && ResolveVoter(votes[a].signer, delegation) == a
      && votes[a].height == height && valid(votes[a])
  }

  function Tally(order: seq<ByteString>, votes: map<ByteString, Vote>): seq<Digest>
    requires forall a | a in order :: a in votes
  {
    seq(|order|, i requires 0 <= i < |order| => votes[order[i]].hash)
  }

  lemma {:induction false} MatchingCounts(order: seq<ByteString>, votes: map<ByteString, Vote>, height: U64, hash: Digest)
    requires forall a | a in order :: a in votes && votes[a].height == height
    ensures |Matching(order, votes, height, hash)| == multiset(Tally(order, votes))[hash]
    decreases |order|
  {
    if order != [] {
      var n := |order| - 1;
      MatchingCounts(order[..n], votes, height, hash);
      assert Tally(order, votes) == Tally(order[..n], votes) + [votes[order[n]].hash];
    }
  }

  ghost predicate DistinctVoters(vs: seq<Vote>, delegation: map<ByteString, ByteString>) {
    forall i, j | 0 <= i < j < |vs| :: ResolveVoter(vs[i].signer, delegation) != ResolveVoter(vs[j].signer, delegation)
  }

  ghost predicate AllCount(valid: Check, vs: seq<Vote>, committee: set<ByteString>, delegation: map<ByteString, ByteString>) {
    forall v | v in vs :: valid(v) && ResolveVoter(v.signer, delegation) in committee
  }

  /** Each matching vote is the one held for the account it resolves to, and no account repeats. */
  lemma {:induction false} MatchingIndexed(
    order: seq<ByteString>, votes: map<ByteString, Vote>, height: U64, hash: Digest, delegation: map<ByteString, ByteString>
  )
    requires NoDuplicates(order)
    requires forall a | a in order :: a in votes && ResolveVoter(votes[a].signer, delegation) == a
    ensures DistinctVoters(Matching(order, votes, height, hash), delegation)
    ensures forall v | v in Matching(order, votes, height, hash) ::
      && v.height == height && v.hash == hash
      && ResolveVoter(v.signer, delegation) in order && votes[ResolveVoter(v.signer, delegation)] == v
    decreases |order|
  {
    if order != [] {
      var n := |order| - 1;
      MatchingIndexed(order[..n], votes, height, hash, delegation);
      assert order[n] !in order[..n];
    }
  }

  lemma {:induction false} EndorsersOfDistinct(
    valid: Check, vs: seq<Vote>, committee: set<ByteString>, delegation: map<ByteString, ByteString>
  )
    requires AllCount(valid, vs, committee, delegation) && DistinctVoters(vs, delegation)
    ensures |Endorsers(valid, vs, committee, delegation)| == |vs|
    decreases |vs|
  {
    if vs != [] {
      var n := |vs| - 1;
      assert vs == vs[..n] + [vs[n]];
      EndorsersOfDistinct(valid, vs[..n], committee, delegation);
      EndorsersGrow(valid, vs[..n], vs[n], committee, delegation);
      assert ResolveVoter(vs[n].signer, delegation) !in Endorsers(valid, vs[..n], committee, delegation);
    }
  }

  predicate IsHeld(v: Vote, votes: map<ByteString, Vote>, delegation: map<ByteString, ByteString>) {
    var a := ResolveVoter(v.signer, delegation);
    a in votes && votes[a] == v
  }

  lemma SelectedCount(
    valid: Check, height: U64, hash: Digest, votes: map<ByteString, Vote>,
    committee: set<ByteString>, delegation: map<ByteString, ByteString>
  )
    requires Held(valid, height, committee, delegation, votes)
    ensures var selected := Selected(height, hash, votes);
      && AllCount(valid, selected, committee, delegation) && DistinctVoters(selected, delegation)
      && forall v | v in selected :: v.height == height && v.hash == hash && IsHeld(v, votes, delegation)
  {
    MatchingIndexed(Ascending(votes.Keys), votes, height, hash, delegation);
  }

  /** Held votes for one hash: their number is the tally's count, and each endorses its own account. */
  lemma HeldVotesEndorse(
    valid: Check, height: U64, hash: Digest, votes: map<ByteString, Vote>,
    committee: set<ByteString>, delegation: map<ByteString, ByteString>
  )
    requires Held(valid, height, committee, delegation, votes)
    ensures var selected := Selected(height, hash, votes);
      && |selected| == multiset(Tally(Ascending(votes.Keys), votes))[hash]
      && |Endorsers(valid, selected, committee, delegation)| == |selected|
      && |Endorsers(valid, Carried(selected), committee, delegation)| == |Carried(selected)|
      && forall v | v in selected :: v.height == height && v.hash == hash && IsHeld(v, votes, delegation)
  {
    MatchingCounts(Ascending(votes.Keys), votes, height, hash);
    SelectedCount(valid, height, hash, votes, committee, delegation);
    var selected := Selected(height, hash, votes);
    EndorsersOfDistinct(valid, selected, committee, delegation);
    PrefixCounts(valid, selected, committee, delegation);
    EndorsersOfDistinct(valid, Carried(selected), committee, delegation);
  }

  lemma PrefixCounts(valid: Check, vs: seq<Vote>, committee: set<ByteString>, delegation: map<ByteString, ByteString>)
    requires AllCount(valid, vs, committee, delegation) && DistinctVoters(vs, delegation)
    ensures AllCount(valid, Carried(vs), committee, delegation) && DistinctVoters(Carried(vs), delegation)
  {}

  // ---------------------------------------------------------------- votes that may have lost their key

  /** Valid votes for one height, whatever accounts they were let in under. */
  ghost predicate Authentic(valid: Check, height: U64, votes: map<ByteString, Vote>) {
    forall a | a in votes :: votes[a].height == height && valid(votes[a])
  }

  /** The committee accounts some vote speaks for under a delegation. */
  function Voices(vs: seq<Vote>, committee: set<ByteString>, delegation: map<ByteString, ByteString>): set<ByteString> {
    set v | v in vs && ResolveVoter(v.signer, delegation) in committee :: ResolveVoter(v.signer, delegation)
  }

  /** The committee accounts that the kept votes for `hash` speak for under a delegation. */
  function Speaking(
    votes: map<ByteString, Vote>, hash: Digest, committee: set<ByteString>, delegation: map<ByteString, ByteString>
  ): set<ByteString> {
    set a | a in votes && votes[a].hash == hash && ResolveVoter(votes[a].signer, delegation) in committee
      :: ResolveVoter(votes[a].signer, delegation)
  }

  /** The verdict on a well-formed proof whose votes speak for `voices` accounts. */
  function Weighed(committee: set<ByteString>, voices: nat): Verdict {
    if voices >= Alpha(|committee|) then Accepted
    else Rejected(if committee == {} then EmptyCommittee else InsufficientSignatures)
  }

  predicate MatchingKey(votes: map<ByteString, Vote>, a: ByteString, v: Vote, height: U64, hash: Digest) {
    a in votes && votes[a] == v && v.height == height && v.hash == hash
  }

  lemma {:induction false} MatchingMembers(order: seq<ByteString>, votes: map<ByteString, Vote>, height: U64, hash: Digest, v: Vote)
    requires forall a | a in order :: a in votes
    ensures v in Matching(order, votes, height, hash) <==> exists a :: a in order && MatchingKey(votes, a, v, height, hash)
    ensures |Matching(order, votes, height, hash)| <= |order|
    decreases |order|
  {
    if order != [] {
      var n := |order| - 1;
      var head, x := Matching(order[..n], votes, height, hash), votes[order[n]];
      MatchingMembers(order[..n], votes, height, hash, v);
      assert order == order[..n] + [order[n]];
      assert Matching(order, votes, height, hash) == head + if x.height == height && x.hash == hash then [x] else [];
      if v == x && x.height == height && x.hash == hash {
        assert MatchingKey(votes, order[n], v, height, hash);
      } else if exists a :: a in order && MatchingKey(votes, a, v, height, hash) {
        var a :| a in order && MatchingKey(votes, a, v, height, hash);
        assert a in order[..n];
      }
    }
  }

  lemma SelectedMembers(votes: map<ByteString, Vote>, height: U64, hash: Digest, v: Vote)
    ensures v in Selected(height, hash, votes) <==> exists a :: MatchingKey(votes, a, v, height, hash)
    ensures |Selected(height, hash, votes)| <= |votes|
  {
    MatchingMembers(Ascending(votes.Keys), votes, height, hash, v);
    assert |votes.Keys| == |votes|;
  }

  lemma VoicesAreSpeaking(
    valid: Check, height: U64, hash: Digest, votes: map<ByteString, Vote>,
    committee: set<ByteString>, delegation: map<ByteString, ByteString>
  )
    requires Authentic(valid, height, votes)
    ensures Voices(Selected(height, hash, votes), committee, delegation) == Speaking(votes, hash, committee, delegation)
  {
    var selected, speaking := Selected(height, hash, votes), Speaking(votes, hash, committee, delegation);
    forall v ensures v in selected <==> exists a :: MatchingKey(votes, a, v, height, hash) {
      SelectedMembers(votes, height, hash, v);
    }
    hide Selected;
    forall x | x in speaking ensures x in Voices(selected, committee, delegation) {
      var a :| a in votes && votes[a].hash == hash && ResolveVoter(votes[a].signer, delegation) == x;
      assert MatchingKey(votes, a, votes[a], height, hash);
    }
    forall x | x in Voices(selected, committee, delegation) ensures x in speaking {
      var v :| v in selected && ResolveVoter(v.signer, delegation) == x;
      var a :| MatchingKey(votes, a, v, height, hash);
    }
  }

  lemma AuthenticSelected(valid: Check, height: U64, hash: Digest, votes: map<ByteString, Vote>)
    requires Authentic(valid, height, votes)
    ensures forall v | v in Selected(height, hash, votes) :: valid(v) && v.height == height && v.hash == hash
  {
    forall v | v in Selected(height, hash, votes) ensures valid(v) && v.height == height && v.hash == hash {
      SelectedMembers(votes, height, hash, v);
      var a :| MatchingKey(votes, a, v, height, hash);
    }
  }

  lemma {:induction false} FewVoices(vs: seq<Vote>, committee: set<ByteString>, delegation: map<ByteString, ByteString>)
    ensures |Voices(vs, committee, delegation)| <= |vs|
  {
    if vs != [] {
      var n := |vs| - 1;
      FewVoices(vs[..n], committee, delegation);
      var a := ResolveVoter(vs[n].signer, delegation);
      assert vs == vs[..n] + [vs[n]];
      assert Voices(vs, committee, delegation) == Voices(vs[..n], committee, delegation) + if a in committee then {a} else {};
    }
  }

  /** Exactly when a proof is accepted, of whatever votes for one height, let in under whatever view: the
      committee accounts its votes speak for, under the verifier's delegation, reach alpha. Up to the vote
      count's limit those are the accounts all the matching votes speak for. */
  lemma ProofAcceptedExactly(
    valid: Check, height: U64, hash: Digest, votes: map<ByteString, Vote>,
    committee: set<ByteString>, delegation: map<ByteString, ByteString>
  )
    requires Authentic(valid, height, votes)
    ensures var selected := Selected(height, hash, votes);
      var proof := ProofOf(height, hash, Carried(selected));
      && |proof| == PROOF_HEADER + |Carried(selected)| * PROOF_VOTE && CountIn(proof) == |Carried(selected)|
      && VotesIn(proof) == Carried(selected)
      && Judge(valid, hash, height, proof, committee, delegation)
           == Weighed(committee, |Voices(Carried(selected), committee, delegation)|)
      && (|selected| <= MAX_COUNT ==>
          Voices(Carried(selected), committee, delegation) == Speaking(votes, hash, committee, delegation))
  {
    var selected := Selected(height, hash, votes);
    AuthenticSelected(valid, height, hash, votes);
    VoicesAreSpeaking(valid, height, hash, votes, committee, delegation);
    assert forall v | v in Carried(selected) :: v in selected;
    hide ProofOf, Selected, Speaking, CountIn, VotesIn, HeightIn, Judge, Voices;
    JudgedByVoices(valid, height, hash, Carried(selected), committee, delegation);
  }

  lemma JudgedByVoices(
    valid: Check, height: U64, hash: Digest, vs: seq<Vote>, committee: set<ByteString>, delegation: map<ByteString, ByteString>
  )
    requires |vs| <= MAX_COUNT && forall v | v in vs :: valid(v) && v.height == height && v.hash == hash
    ensures var proof := ProofOf(height, hash, vs);
      && |proof| == PROOF_HEADER + |vs| * PROOF_VOTE && CountIn(proof) == |vs| && VotesIn(proof) == vs
      && Judge(valid, hash, height, proof, committee, delegation) == Weighed(committee, |Voices(vs, committee, delegation)|)
  {
    ProofReadsBack(height, hash, vs);
    AlphaPositive(|committee|);
    NoCommitteeNoVoices(vs, committee, delegation);
    assert Endorsers(valid, vs, committee, delegation) == Voices(vs, committee, delegation);
    hide ProofOf, CountIn, VotesIn, HeightIn, Alpha, FromLittleEndian, Voices, Endorsers;
  }

  lemma AlphaPositive(k: nat)
    ensures Alpha(k) >= 1
  {}

  lemma NoCommitteeNoVoices(vs: seq<Vote>, committee: set<ByteString>, delegation: map<ByteString, ByteString>)
    ensures committee == {} ==> Voices(vs, committee, delegation) == {}
  {}

  /** Held votes all speak, each for its own account. */
  lemma HeldSpeaks(
    valid: Check, height: U64, hash: Digest, votes: map<ByteString, Vote>,
    committee: set<ByteString>, delegation: map<ByteString, ByteString>
  )
    requires Held(valid, height, committee, delegation, votes)
    ensures |Speaking(votes, hash, committee, delegation)| == |Selected(height, hash, votes)|
    ensures |Voices(Carried(Selected(height, hash, votes)), committee, delegation)| == |Carried(Selected(height, hash, votes))|
  {
    var selected := Selected(height, hash, votes);
    HeldVotesEndorse(valid, height, hash, votes, committee, delegation);
    VoicesAreSpeaking(valid, height, hash, votes, committee, delegation);
    AuthenticSelected(valid, height, hash, votes);
    hide Selected, Speaking, Tally, IsHeld;
    assert Endorsers(valid, selected, committee, delegation) == Voices(selected, committee, delegation);
    assert Endorsers(valid, Carried(selected), committee, delegation) == Voices(Carried(selected), committee, delegation);
  }

  /** Exactly when a proof built from held votes convinces every verifier with the same committee,
      delegation and chain: there is a committee, and the votes that fit in the proof reach `Alpha`. */
  lemma ProofCompleteness(
    valid: Check, height: U64, hash: Digest, votes: map<ByteString, Vote>,
    committee: set<ByteString>, delegation: map<ByteString, ByteString>
  )
    requires Held(valid, height, committee, delegation, votes)
    ensures var selected := Selected(height, hash, votes);
      var proof := ProofOf(height, hash, Carried(selected));
      && |selected| == multiset(Tally(Ascending(votes.Keys), votes))[hash]
      && |proof| == PROOF_HEADER + |Carried(selected)| * PROOF_VOTE && CountIn(proof) == |Carried(selected)|
      && VotesIn(proof) == Carried(selected)
      && (Judge(valid, hash, height, proof, committee, delegation) == Accepted
          <==> committee != {} && |Carried(selected)| >= Alpha(|committee|))
  {
    HeldVotesEndorse(valid, height, hash, votes, committee, delegation);
    ProofReadsBack(height, hash, Carried(Selected(height, hash, votes)));
  }

  /** The 16-bit vote count never costs a proof its quorum for committees of up to 93621 members. */
  lemma CountFieldSuffices(k: nat)
    ensures Alpha(k) <= MAX_COUNT <==> k <= 93621
  {}

  lemma CarriedReachesAlpha(vs: seq<Vote>, k: nat)
    requires |vs| <= k <= 93621
    ensures |Carried(vs)| >= Alpha(k) <==> |vs| >= Alpha(k)
  {
    CountFieldSuffices(k);
  }

  lemma EnoughVotesProve(
    valid: Check, height: U64, hash: Digest, votes: map<ByteString, Vote>,
    committee: set<ByteString>, delegation: map<ByteString, ByteString>
  )
    requires Held(valid, height, committee, delegation, votes) && |committee| <= 93621
    requires |Selected(height, hash, votes)| >= Alpha(|committee|)
    ensures var proof := ProofOf(height, hash, Carried(Selected(height, hash, votes)));
      && Judge(valid, hash, height, proof, committee, delegation) == Accepted
      && |proof| == PROOF_HEADER + CountIn(proof) * PROOF_VOTE
      && VotesIn(proof) == Carried(Selected(height, hash, votes))
  {
    ProofCompleteness(valid, height, hash, votes, committee, delegation);
    CountFieldSuffices(|committee|);
    SelectedFromVotes(height, hash, votes);
  }

  lemma SelectedFromVotes(height: U64, hash: Digest, votes: map<ByteString, Vote>)
    ensures Selected(height, hash, votes) != [] ==> exists a :: a in votes
  {
    if Selected(height, hash, votes) != [] {
      var order := Ascending(votes.Keys);
      assert order[|order| - 1] in votes;
    }
  }
}
