/** The beacon on chain: storage maps instead of the core's fields, revealed secrets bounded in
    length, secrets (not keys) kept active, and storage iterated in an order of its own. */
module PalletBeacon {
  import opened Bytes
  import opened Beacon
  import opened Numerals

  datatype Storage = Storage(
    beacon: Digest, pending: map<Name, Digest>, awaiting: map<Name, Digest>,
    staged: map<Name, Secret>, active: map<Name, Secret>
  )

  datatype Outcome = Ok | BadReveal | SecretTooLong

  /** An enumeration of a storage map's keys, in whatever order the storage has. */
  ghost predicate Enumerates<V>(order: seq<Name>, m: map<Name, V>) {
    NoDuplicates(order) && forall n :: n in order <==> n in m
  }

  function BuiltWith(genesis: Digest): Storage { Storage(genesis, map[], map[], map[], map[]) }

  function CommitTo(p: Storage, who: Name, c: Digest): Storage { p.(pending := p.pending[who := c]) }

  function RevealResult(h: Hasher, max: nat, p: Storage, who: Name, secret: Secret): Outcome {
    if who !in p.awaiting || h(secret) != p.awaiting[who] then BadReveal
    else if |secret| > max then SecretTooLong
    else Ok
  }

  function RevealTo(h: Hasher, max: nat, p: Storage, who: Name, secret: Secret): Storage {
    if RevealResult(h, max, p, who, secret) == Ok then p.(staged := p.staged[who := secret]) else p
  }

  ghost function RolledWith(h: Hasher, p: Storage, order: seq<Name>): Storage
    requires Enumerates(order, p.staged)
  {
    Storage(SeedOf(h, p.beacon, ValuesIn(order, p.staged)), map[], p.pending, map[], p.staged)
  }

  class Pallet {
    const sha: Hasher
    const maxSecretLen: nat
    const epochLength: nat
    var beacon: Digest
    var pending: map<Name, Digest>
    var awaiting: map<Name, Digest>
    var staged: map<Name, Secret>
    var active: map<Name, Secret>

    ghost function State(): Storage reads this { Storage(beacon, pending, awaiting, staged, active) }

    constructor (h: Hasher, maxSecretLen: nat, epochLength: nat, genesis: Digest)
      ensures sha == h && this.maxSecretLen == maxSecretLen && this.epochLength == epochLength
      ensures State() == BuiltWith(genesis)
    {
      sha, this.maxSecretLen, this.epochLength, beacon := h, maxSecretLen, epochLength, genesis;
      pending, awaiting, staged, active := map[], map[], map[], map[];
    }

    method Commit(who: Name, commitment: Digest)
      modifies this
      ensures State() == CommitTo(old(State()), who, commitment)
    {
      pending := pending[who := commitment];
    }

    method Reveal(who: Name, secret: Secret) returns (r: Outcome)
      modifies this
      ensures r == RevealResult(sha, maxSecretLen, old(State()), who, secret)
      ensures State() == RevealTo(sha, maxSecretLen, old(State()), who, secret)
    {
      if who !in awaiting { return BadReveal; }
      if sha(secret) != awaiting[who] { return BadReveal; }
      if |secret| > maxSecretLen { return SecretTooLong; }
      staged := staged[who := secret];
      return Ok;
    }

    /** What was staged becomes active. */
    method Activate(order: seq<Name>)
      requires Enumerates(order, staged)
      modifies this`active
      ensures active == staged
    {
      active := map[];
      for i := 0 to |order|
        invariant forall n :: n in active <==> n in order[..i]
        invariant forall n | n in active :: n in staged && active[n] == staged[n]
      {
        active := active[order[i] := staged[order[i]]];
      }
      assert order[..|order|] == order;
    }

    /** What was pending is awaited. */
    method Promote(order: seq<Name>)
      requires Enumerates(order, pending)
      modifies this`awaiting
      ensures awaiting == pending
    {
      awaiting := map[];
      for i := 0 to |order|
        invariant forall n :: n in awaiting <==> n in order[..i]
        invariant forall n | n in awaiting :: n in pending && awaiting[n] == pending[n]
      {
        awaiting := awaiting[order[i] := pending[order[i]]];
      }
      assert order[..|order|] == order;
    }

    method Roll(order: seq<Name>, pendingOrder: seq<Name>)
      requires Enumerates(order, staged) && Enumerates(pendingOrder, pending)
      modifies this
      ensures State() == RolledWith(sha, old(State()), order)
    {
      beacon := BeaconSeed(sha, beacon, ValuesIn(order, staged));
      Activate(order);
      Promote(pendingOrder);
      pending, staged := map[], map[];
    }

    /** Rolls by itself at every epoch boundary but block 0. */
    method OnInitialize(n: nat, order: seq<Name>, pendingOrder: seq<Name>)
      requires Enumerates(order, staged) && Enumerates(pendingOrder, pending)
      modifies this
      ensures State() == if AtBoundary(epochLength, n) then RolledWith(sha, old(State()), order) else old(State())
    {
      if n != 0 && epochLength != 0 && n % epochLength == 0 {
        Roll(order, pendingOrder);
      }
    }

    method CommittedKey(who: Name) returns (key: Option<ByteString>)
      ensures key == KeyOf(sha, State(), who)
    {
      if who !in active { return None; }
      var k := ToHex(sha(active[who]));
      return Some(k);
    }
  }

  predicate AtBoundary(epochLength: nat, n: nat) { n != 0 && epochLength != 0 && n % epochLength == 0 }

  function KeyOf(h: Hasher, p: Storage, who: Name): Option<ByteString> {
    if who in p.active then Some(Hex(h(p.active[who]))) else None
  }

  // ---------------------------------------------------------------- refinement

  /** The core state a storage stands for: the same maps, active secrets read as their hex keys. */
  function Abstract(h: Hasher, p: Storage): Pipeline {
    Pipeline(p.beacon, KeysFrom(h, p.active), p.pending, p.awaiting, p.staged)
  }

  predicate Bounded(max: nat, p: Storage) { forall n | n in p.staged :: |p.staged[n]| <= max }

  function Without(b: seq<Name>, i: nat): seq<Name> requires i < |b| { b[..i] + b[i + 1..] }

  lemma WithoutOne(m: map<Name, Secret>, b: seq<Name>, i: nat)
    requires i < |b| && forall n | n in b :: n in m
    ensures forall n | n in Without(b, i) :: n in m
    ensures multiset(ValuesIn(b, m)) == multiset(ValuesIn(Without(b, i), m)) + multiset{m[b[i]]}
  {
    assert ValuesIn(b, m) == ValuesIn(b[..i], m) + [m[b[i]]] + ValuesIn(b[i + 1..], m);
    assert ValuesIn(Without(b, i), m) == ValuesIn(b[..i], m) + ValuesIn(b[i + 1..], m);
  }

  lemma WithoutMembers(b: seq<Name>, i: nat)
    requires i < |b| && NoDuplicates(b)
    ensures NoDuplicates(Without(b, i)) && forall n :: n in Without(b, i) <==> n in b && n != b[i]
  {
    var c := Without(b, i);
    assert forall j | 0 <= j < |c| :: c[j] == b[if j < i then j else j + 1];
    forall n | n in b && n != b[i] ensures n in c {
      var j :| 0 <= j < |b| && b[j] == n;
      assert c[if j < i then j else j - 1] == n;
    }
  }

  lemma MemberExists(s: seq<Name>)
    ensures s != [] ==> exists n :: n in s
  {
    if s != [] { assert s[0] in s; }
  }

  lemma {:induction false} SameContributions(m: map<Name, Secret>, a: seq<Name>, b: seq<Name>)
    requires NoDuplicates(a) && NoDuplicates(b) && (forall n :: n in a <==> n in b) && (forall n | n in a :: n in m)
    ensures multiset(ValuesIn(a, m)) == multiset(ValuesIn(b, m))
    decreases |a|
  {
    if a == [] {
      MemberExists(b);
    } else {
      assert a[0] in a && a[0] in b;
      var i :| 0 <= i < |b| && b[i] == a[0];
      WithoutMembers(a, 0);
      WithoutMembers(b, i);
      WithoutOne(m, a, 0);
      WithoutOne(m, b, i);
      SameContributions(m, Without(a, 0), Without(b, i));
    }
  }

  /** Whatever order the storage iterates in, the roll is the core's roll. */
  lemma RollRefines(h: Hasher, p: Storage, order: seq<Name>)
    requires Enumerates(order, p.staged)
    ensures Abstract(h, RolledWith(h, p, order)) == RollOf(h, Abstract(h, p))
  {
    SameContributions(p.staged, order, Ascending(p.staged.Keys));
    SeedOrderIndependent(h, p.beacon, ValuesIn(order, p.staged), ValuesIn(Ascending(p.staged.Keys), p.staged));
  }

  /** Two on-chain epochs in which as many secrets are staged end with the same beacon exactly if they began with
      the same one and staged the same bag of secrets, whoever staged them and whatever order each iterates in. */
  lemma RolledBinds(h: Hasher, p: Storage, order: seq<Name>, r: Storage, order': seq<Name>)
    requires Enumerates(order, p.staged) && Enumerates(order', r.staged) && |p.staged| == |r.staged|
    requires SeedsApart(h, p.beacon, ValuesIn(order, p.staged), r.beacon, ValuesIn(order', r.staged))
    ensures RolledWith(h, p, order).beacon == RolledWith(h, r, order').beacon <==>
      p.beacon == r.beacon && multiset(ValuesIn(order, p.staged)) == multiset(ValuesIn(order', r.staged))
  {
    SameContributions(p.staged, order, Ascending(p.staged.Keys));
    SameContributions(r.staged, order', Ascending(r.staged.Keys));
    var a, b := ValuesIn(order, p.staged), ValuesIn(order', r.staged);
    assert |a| == |multiset(a)| == |p.staged.Keys| == |p.staged|;
    assert |b| == |multiset(b)| == |r.staged.Keys| == |r.staged|;
    SeedBinds(h, p.beacon, a, r.beacon, b);
  }

  /** A reveal refines the core's exactly when its secret fits, or would be refused anyway; an opening
      secret over the limit is staged by the core and refused on chain. */
  lemma RevealRefines(h: Hasher, max: nat, p: Storage, who: Name, secret: Secret)
    requires Bounded(max, p)
    ensures Abstract(h, RevealTo(h, max, p, who, secret)) == RevealOf(h, Abstract(h, p), who, secret)
       <==> (|secret| <= max || !Opens(h, Abstract(h, p), who, secret))
    ensures Bounded(max, RevealTo(h, max, p, who, secret))
  {
    if Opens(h, Abstract(h, p), who, secret) && |secret| > max {
      assert RevealOf(h, Abstract(h, p), who, secret).staged[who] == secret;
    }
  }

  datatype Call = Do(op: Op) | Block(n: nat, order: seq<Name>)

  /** One extrinsic or block start; block starts carry the storage's iteration order. */
  ghost predicate CallStep(h: Hasher, max: nat, epochLength: nat, p: Storage, call: Call, q: Storage) {
    match call
    case Do(Commit(who, c)) => q == CommitTo(p, who, c)
    case Do(Reveal(who, secret)) => q == RevealTo(h, max, p, who, secret)
    case Block(n, order) =>
      if AtBoundary(epochLength, n) then Enumerates(order, p.staged) && q == RolledWith(h, p, order) else q == p
  }

  function CoreStep(h: Hasher, epochLength: nat, s: Pipeline, call: Call): Pipeline {
    match call
    case Do(op) => Apply(h, s, op)
    case Block(n, _) => if AtBoundary(epochLength, n) then RollOf(h, s) else s
  }

  function CoreRun(h: Hasher, epochLength: nat, genesis: Digest, calls: seq<Call>): Pipeline {
    if calls == [] then Genesis(genesis)
    else CoreStep(h, epochLength, CoreRun(h, epochLength, genesis, calls[..|calls| - 1]), calls[|calls| - 1])
  }

  /** REFINEMENT. Over every call sequence whose secrets fit, with any iteration orders, the chain's
      storage abstracts to the core's state and offers every account the core's active key. */
  lemma {:induction false} PalletRefinesCore(
    h: Hasher, max: nat, epochLength: nat, genesis: Digest, states: seq<Storage>, calls: seq<Call>
  )
    requires |states| == |calls| + 1 && states[0] == BuiltWith(genesis)
    requires forall i | 0 <= i < |calls| :: CallStep(h, max, epochLength, states[i], calls[i], states[i + 1])
    requires forall i | 0 <= i < |calls| :: calls[i].Do? && calls[i].op.Reveal? ==> |calls[i].op.secret| <= max
    ensures var p, s := states[|calls|], CoreRun(h, epochLength, genesis, calls);
      && Bounded(max, p) && Abstract(h, p) == s
      && forall who :: KeyOf(h, p, who) == if who in s.active then Some(s.active[who]) else None
    decreases |calls|
  {
    if calls != [] {
      var k := |calls| - 1;
      PalletRefinesCore(h, max, epochLength, genesis, states[..|calls|], calls[..k]);
      var p, call := states[k], calls[k];
      assert CallStep(h, max, epochLength, p, call, states[k + 1]);
      if call.Do? && call.op.Reveal? { RevealRefines(h, max, p, call.op.node, call.op.secret); }
      if call.Block? && AtBoundary(epochLength, call.n) { RollRefines(h, p, call.order); }
    }
  }

  // ---------------------------------------------------------------- blocks and epochs

  /** The calls of the epochs that blocks have closed, and those since. */
  function Cut(epochLength: nat, calls: seq<Call>): (seq<seq<Op>>, seq<Op>) {
    if calls == [] then ([], [])
    else
      var (closed, open) := Cut(epochLength, calls[..|calls| - 1]);
      match calls[|calls| - 1]
      case Do(op) => (closed, open + [op])
      case Block(n, _) => if AtBoundary(epochLength, n) then (closed + [open], []) else (closed, open)
  }

  function BlocksIn(calls: seq<Call>): nat {
    if calls == [] then 0 else BlocksIn(calls[..|calls| - 1]) + if calls[|calls| - 1].Block? then 1 else 0
  }

  ghost predicate Numbered(calls: seq<Call>) {
    forall i | 0 <= i < |calls| && calls[i].Block? :: calls[i].n == BlocksIn(calls[..i])
  }

  /** Whole epochs among the blocks `1 .. b`. */
  function Elapsed(epochLength: nat, b: nat): nat { if epochLength == 0 then 0 else b / epochLength }

  lemma MultipleReached(n: nat, b: nat)
    ensures Elapsed(n, b + 1) == Elapsed(n, b) + if AtBoundary(n, b + 1) then 1 else 0
  {
    if n > 0 { NextMultiple(b, n); }
  }

  lemma NextMultiple(b: nat, n: nat)
    requires n > 0
    ensures (b + 1) / n == b / n + if (b + 1) % n == 0 then 1 else 0
  {
    var q, r := b / n, b % n;
    assert b == n * q + r;
    var q', r' := if r == n - 1 then q + 1 else q, if r == n - 1 then 0 else r + 1;
    assert n * (q + 1) == n * q + n;
    QuotientUnique(n, (b + 1) / n, (b + 1) % n, q', r');
  }

  /** After blocks `0 .. b`, `b / length` epochs are closed, and none if the length is zero. */
  lemma {:induction false} EpochsClosed(epochLength: nat, calls: seq<Call>)
    requires Numbered(calls)
    ensures |Cut(epochLength, calls).0| ==
      if BlocksIn(calls) == 0 then 0 else Elapsed(epochLength, BlocksIn(calls) - 1)
    decreases |calls|
  {
    NothingElapsed(epochLength);
    hide Elapsed, AtBoundary;
    if calls != [] {
      var before, last := calls[..|calls| - 1], calls[|calls| - 1];
      forall i | 0 <= i < |before| && before[i].Block? ensures before[i].n == BlocksIn(before[..i]) {
        assert before[..i] == calls[..i];
      }
      EpochsClosed(epochLength, before);
      if last.Block? && BlocksIn(before) > 0 { MultipleReached(epochLength, BlocksIn(before) - 1); }
    }
  }

  lemma NothingElapsed(epochLength: nat)
    ensures Elapsed(epochLength, 0) == 0 && !AtBoundary(epochLength, 0)
  {}

  lemma {:induction false} RunIsEpochs(h: Hasher, epochLength: nat, genesis: Digest, calls: seq<Call>)
    ensures var cut := Cut(epochLength, calls);
      CoreRun(h, epochLength, genesis, calls) == Within(h, Through(h, genesis, cut.0), cut.1)
    decreases |calls|
  {
    hide RollOf, Apply, AtBoundary;
    if calls != [] {
      RunIsEpochs(h, epochLength, genesis, calls[..|calls| - 1]);
      var (closed, open) := Cut(epochLength, calls[..|calls| - 1]);
      match calls[|calls| - 1] {
        case Do(op) => assert (open + [op])[..|open|] == open;
        case Block(_, _) => assert (closed + [open])[..|closed|] == closed;
      }
    }
  }

  /** LOCKING ON CHAIN. After any calls whose secrets fit, and whatever order the storage iterates in, an account has a
      key exactly if it committed in the epoch before last and opened its last commitment there in the last one; the
      key is that commitment in hex, whatever secret opened it. */
  lemma OnChainLocking(
    h: Hasher, max: nat, epochLength: nat, genesis: Digest, states: seq<Storage>, calls: seq<Call>, who: Name
  )
    requires |states| == |calls| + 1 && states[0] == BuiltWith(genesis)
    requires forall i | 0 <= i < |calls| :: CallStep(h, max, epochLength, states[i], calls[i], states[i + 1])
    requires forall i | 0 <= i < |calls| :: calls[i].Do? && calls[i].op.Reveal? ==> |calls[i].op.secret| <= max
    ensures var key, c := KeyOf(h, states[|calls|], who), OpenedCommitment(h, Cut(epochLength, calls).0, who);
      key == match c case None => None case Some(commitment) => Some(Hex(commitment))
  {
    hide CoreRun, CallStep, KeyOf, OpenedCommitment, Cut, Hex;
    PalletRefinesCore(h, max, epochLength, genesis, states, calls);
    RunIsEpochs(h, epochLength, genesis, calls);
    var cut := Cut(epochLength, calls);
    BeaconLocking(h, genesis, cut.0, cut.1, who);
  }
}
