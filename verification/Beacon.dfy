/** The commit-reveal beacon: a three-stage pipeline over epochs. SHA-256 is a parameter. */
module Beacon {
  import opened Bytes

  type Hasher = ByteString -> Digest
  type Name = ByteString
  type Secret = ByteString

  // ---------------------------------------------------------------- the deferred seed

  function Mix(h: Hasher, acc: Digest, contribution: ByteString): Digest { h(acc + contribution) }

  predicate IsSorted(s: seq<ByteString>) {
    forall i, j | 0 <= i < j < |s| :: LexLe(s[i], s[j])
  }

  function Insert(x: ByteString, s: seq<ByteString>): (r: seq<ByteString>)
    ensures multiset(r) == multiset(s) + multiset{x}
  {
    if s == [] || LexLe(x, s[0]) then [x] + s
    else
      assert s == [s[0]] + s[1..];
      [s[0]] + Insert(x, s[1..])
  }

  function Sorted(s: seq<ByteString>): (r: seq<ByteString>)
    ensures multiset(r) == multiset(s)
  {
    if s == [] then []
    else
      assert s == [s[0]] + s[1..];
      Insert(s[0], Sorted(s[1..]))
  }

  lemma {:induction false} InsertSorted(x: ByteString, s: seq<ByteString>)
    requires IsSorted(s)
    ensures IsSorted(Insert(x, s))
  {
    if s == [] {
    } else if LexLe(x, s[0]) {
      forall j | 0 <= j < |s| ensures LexLe(x, s[j]) {
        if j > 0 { LexTransitive(x, s[0], s[j]); }
      }
    } else {
      LexTotal(x, s[0]);
      InsertSorted(x, s[1..]);
      var tail := Insert(x, s[1..]);
      forall j | 0 <= j < |tail| ensures LexLe(s[0], tail[j]) {
        assert tail[j] in multiset(tail);
        assert tail[j] == x || tail[j] in s[1..];
      }
    }
  }

  lemma {:induction false} SortedIsSorted(s: seq<ByteString>)
    ensures IsSorted(Sorted(s))
  {
    if s != [] {
      SortedIsSorted(s[1..]);
      InsertSorted(s[0], Sorted(s[1..]));
    }
  }

  lemma HeadIsLeast(s: seq<ByteString>, x: ByteString)
    requires IsSorted(s) && x in multiset(s)
    ensures LexLe(s[0], x)
  {
    LexReflexive(s[0]);
    assert x in s;
  }

  lemma TailContents(s: seq<ByteString>)
    requires s != []
    ensures multiset(s[1..]) == multiset(s) - multiset{s[0]}
    ensures IsSorted(s) ==> IsSorted(s[1..])
  {
    assert s == [s[0]] + s[1..];
  }

  lemma SameHead(s: seq<ByteString>, t: seq<ByteString>)
    requires IsSorted(s) && IsSorted(t) && multiset(s) == multiset(t) && s != [] && t != []
    ensures s[0] == t[0] && multiset(s[1..]) == multiset(t[1..]) && IsSorted(s[1..]) && IsSorted(t[1..])
  {
    assert s[0] in multiset(t) && t[0] in multiset(s);
    HeadIsLeast(s, t[0]);
    HeadIsLeast(t, s[0]);
    LexAntisymmetric(s[0], t[0]);
    TailContents(s);
    TailContents(t);
  }

  /** A sorted sequence is determined by its contents. */
  lemma {:induction false} SortedUnique(s: seq<ByteString>, t: seq<ByteString>)
    requires IsSorted(s) && IsSorted(t) && multiset(s) == multiset(t)
    ensures s == t
    decreases |s|
  {
    assert |s| == |multiset(s)| == |multiset(t)| == |t|;
    if s != [] {
      SameHead(s, t);
      hide IsSorted;
      SortedUnique(s[1..], t[1..]);
      assert s == [s[0]] + s[1..] && t == [t[0]] + t[1..];
    }
  }

  function Fold(h: Hasher, acc: Digest, cs: seq<ByteString>): Digest {
    if cs == [] then acc else Mix(h, Fold(h, acc, cs[..|cs| - 1]), cs[|cs| - 1])
  }

  function SeedOf(h: Hasher, prev: Digest, contributions: seq<ByteString>): Digest {
    Fold(h, prev, Sorted(contributions))
  }

  method BeaconSeed(h: Hasher, prev: Digest, contributions: seq<ByteString>) returns (acc: Digest)
    ensures acc == SeedOf(h, prev, contributions)
  {
    var sorted := Sorted(contributions);
    acc := prev;
    for i := 0 to |sorted|
      invariant acc == Fold(h, prev, sorted[..i])
    {
      assert sorted[..i + 1][..i] == sorted[..i];
      acc := Mix(h, acc, sorted[i]);
    }
    assert sorted[..|sorted|] == sorted;
  }

  /** Whatever order the contributions are gathered in, the seed is the same. */
  lemma SeedOrderIndependent(h: Hasher, prev: Digest, a: seq<ByteString>, b: seq<ByteString>)
    requires multiset(a) == multiset(b)
    ensures SeedOf(h, prev, a) == SeedOf(h, prev, b)
  {
    SortedIsSorted(a);
    SortedIsSorted(b);
    SortedUnique(Sorted(a), Sorted(b));
  }

  /** The largest contribution is hashed last, onto the seed of the others. */
  lemma LargestIsLast(h: Hasher, prev: Digest, cs: seq<ByteString>, x: ByteString)
    requires forall c | c in cs :: LexLe(c, x)
    ensures SeedOf(h, prev, cs + [x]) == h(SeedOf(h, prev, cs) + x)
  {
    var sorted := Sorted(cs);
    SortedIsSorted(cs);
    SortedIsSorted(cs + [x]);
    forall i | 0 <= i < |sorted| ensures LexLe(sorted[i], x) { assert sorted[i] in multiset(sorted); }
    SortedUnique(Sorted(cs + [x]), sorted + [x]);
    assert (sorted + [x])[..|sorted|] == sorted;
  }

  // ---------------------------------------------------------------- what the seed depends on

  /** The byte strings a fold hashes, in order. */
  function Hashed(h: Hasher, acc: Digest, cs: seq<ByteString>): seq<ByteString> {
    if cs == [] then [] else Hashed(h, acc, cs[..|cs| - 1]) + [Fold(h, acc, cs[..|cs| - 1]) + cs[|cs| - 1]]
  }

  /** No two of the inputs collide. Asked only of inputs at hand: no hash function is injective on all. */
  ghost predicate CollisionFree(h: Hasher, inputs: seq<ByteString>) {
    forall x, y | x in inputs && y in inputs && h(x) == h(y) :: x == y
  }

  lemma SameInput(acc: Digest, c: ByteString, acc': Digest, c': ByteString)
    requires acc + c == acc' + c'
    ensures acc == acc' && c == c'
  {
    assert acc == (acc + c)[..32] && acc' == (acc' + c')[..32];
    assert c == (acc + c)[32..] && c' == (acc' + c')[32..];
  }

  /** Two folds of which neither hashes anything that collides. */
  ghost predicate FoldsApart(h: Hasher, p: Digest, a: seq<ByteString>, q: Digest, b: seq<ByteString>) {
    CollisionFree(h, Hashed(h, p, a) + Hashed(h, q, b))
  }

  lemma FoldsApartBefore(h: Hasher, p: Digest, a: seq<ByteString>, q: Digest, b: seq<ByteString>)
    requires a != [] && b != [] && FoldsApart(h, p, a, q, b)
    ensures FoldsApart(h, p, a[..|a| - 1], q, b[..|b| - 1])
  {
    var small, large := Hashed(h, p, a[..|a| - 1]) + Hashed(h, q, b[..|b| - 1]), Hashed(h, p, a) + Hashed(h, q, b);
    forall z | z in small ensures z in large {}
    hide Hashed;
  }

  lemma LastStep(h: Hasher, p: Digest, a: seq<ByteString>, q: Digest, b: seq<ByteString>)
    requires a != [] && b != [] && FoldsApart(h, p, a, q, b) && Fold(h, p, a) == Fold(h, q, b)
    ensures Fold(h, p, a[..|a| - 1]) == Fold(h, q, b[..|b| - 1]) && a[|a| - 1] == b[|b| - 1]
  {
    var m, n := |a| - 1, |b| - 1;
    var x, y := Fold(h, p, a[..m]) + a[m], Fold(h, q, b[..n]) + b[n];
    assert x in Hashed(h, p, a) && y in Hashed(h, q, b);
    SameInput(Fold(h, p, a[..m]), a[m], Fold(h, q, b[..n]), b[n]);
  }

  lemma LongerEnd(a: seq<ByteString>, b: seq<ByteString>)
    requires 0 < |a| <= |b| && a[|a| - 1] == b[|b| - 1]
    requires a[..|a| - 1] == b[..|b| - 1][|b| - |a|..]
    ensures a == b[|b| - |a|..]
  {
    assert a == a[..|a| - 1] + [a[|a| - 1]];
    assert b[|b| - |a|..] == b[..|b| - 1][|b| - |a|..] + [b[|b| - 1]];
  }

  /** A fold determines all it was made of: of two that end alike, the longer ends with the contributions of
      the shorter, and passes through the seed the shorter started from. */
  lemma {:induction false} FoldBinds(h: Hasher, p: Digest, a: seq<ByteString>, q: Digest, b: seq<ByteString>)
    requires |a| <= |b| && Fold(h, p, a) == Fold(h, q, b) && FoldsApart(h, p, a, q, b)
    ensures a == b[|b| - |a|..] && p == Fold(h, q, b[..|b| - |a|])
    decreases |a|
  {
    if a == [] {
      assert b[..|b|] == b;
    } else {
      hide Fold, FoldsApart;
      var m, n := |a| - 1, |b| - 1;
      LastStep(h, p, a, q, b);
      FoldsApartBefore(h, p, a, q, b);
      FoldBinds(h, p, a[..m], q, b[..n]);
      LongerEnd(a, b);
      assert b[..n][..n - m] == b[..|b| - |a|];
    }
  }

  ghost predicate SeedsApart(h: Hasher, p: Digest, a: seq<ByteString>, q: Digest, b: seq<ByteString>) {
    FoldsApart(h, p, Sorted(a), q, Sorted(b))
  }

  /** SENSITIVITY. Unless the hash function collides on what is hashed, as many contributions give the same seed
      if and only if they are the same bag, mixed into the same seed. */
  lemma SeedBinds(h: Hasher, p: Digest, a: seq<ByteString>, q: Digest, b: seq<ByteString>)
    requires |a| == |b| && SeedsApart(h, p, a, q, b)
    ensures SeedOf(h, p, a) == SeedOf(h, q, b) <==> p == q && multiset(a) == multiset(b)
  {
    var x, y := Sorted(a), Sorted(b);
    assert |x| == |multiset(x)| == |multiset(y)| == |y|;
    if SeedOf(h, p, a) == SeedOf(h, q, b) {
      FoldBinds(h, p, x, q, y);
      assert y[0..] == y && y[..0] == [];
    }
    if p == q && multiset(a) == multiset(b) { SeedOrderIndependent(h, p, a, b); }
  }

  // ---------------------------------------------------------------- hex keys

  function HexChar(n: int): Byte requires 0 <= n < 16 { if n < 10 then 48 + n else 87 + n }

  function Hex(d: ByteString): (s: ByteString)
    ensures |s| == 2 * |d|
  {
    if d == [] then [] else Hex(d[..|d| - 1]) + [HexChar(d[|d| - 1] / 16), HexChar(d[|d| - 1] % 16)]
  }

  method ToHex(d: ByteString) returns (s: ByteString)
    ensures s == Hex(d)
  {
    s := [];
    for i := 0 to |d|
      invariant s == Hex(d[..i])
    {
      assert d[..i + 1][..i] == d[..i];
      s := s + [HexChar(d[i] / 16), HexChar(d[i] % 16)];
    }
    assert d[..|d|] == d;
  }

  lemma {:induction false} HexInjective(a: ByteString, b: ByteString)
    requires Hex(a) == Hex(b)
    ensures a == b
    decreases |a|
  {
    if a != [] {
      var m, n := |a| - 1, |b| - 1;
      var x, y := Hex(a), Hex(b);
      assert x[..|x| - 2] == Hex(a[..m]) && y[..|y| - 2] == Hex(b[..n]);
      assert x[|x| - 2] == HexChar(a[m] / 16) && x[|x| - 1] == HexChar(a[m] % 16);
      assert y[|y| - 2] == HexChar(b[n] / 16) && y[|y| - 1] == HexChar(b[n] % 16);
      HexInjective(a[..m], b[..n]);
      assert a == a[..m] + [a[m]] && b == b[..n] + [b[n]];
    }
  }

  /** What a hex digit stands for: `0` to `9`, then `a` to `f`. */
  function DigitOf(c: Byte): Option<int> {
    if 48 <= c <= 57 then Some(c - 48) else if 97 <= c <= 102 then Some(c - 87) else None
  }

  /** The hex of a byte string is its bytes' digits, high half first, in lower case. */
  lemma {:induction false} HexReadsBack(d: ByteString, i: nat)
    requires i < |d|
    ensures DigitOf(Hex(d)[2 * i]) == Some(d[i] / 16) && DigitOf(Hex(d)[2 * i + 1]) == Some(d[i] % 16)
    decreases |d|
  {
    if i < |d| - 1 { HexReadsBack(d[..|d| - 1], i); }
  }

  // ---------------------------------------------------------------- one round of reveals

  /** The key map of a round: each opened commitment, in hex, whatever secret opened it. */
  method VerifiedSecretKeys(h: Hasher, revelations: map<Name, (Digest, Secret)>) returns (keys: map<Name, ByteString>)
    ensures forall n :: n in keys <==> n in revelations && h(revelations[n].1) == revelations[n].0
    ensures forall n | n in keys :: keys[n] == Hex(revelations[n].0)
  {
    keys := map[];
    var todo := revelations.Keys;
    while todo != {}
      invariant todo <= revelations.Keys
      invariant forall n :: n in keys <==> n in revelations && n !in todo && h(revelations[n].1) == revelations[n].0
      invariant forall n | n in keys :: keys[n] == Hex(revelations[n].0)
      decreases |todo|
    {
      var node :| node in todo;
      todo := todo - {node};
      var (commitment, secret) := revelations[node];
      if h(secret) == commitment {
        var key := ToHex(h(secret));
        keys := keys[node := key];
      }
    }
  }

  // ---------------------------------------------------------------- the pipeline

  datatype Pipeline = Pipeline(
    seed: Digest, active: map<Name, ByteString>, pending: map<Name, Digest>, awaiting: map<Name, Digest>, staged: map<Name, Secret>
  )

  function Genesis(seed: Digest): Pipeline { Pipeline(seed, map[], map[], map[], map[]) }

  function CommitOf(s: Pipeline, node: Name, c: Digest): Pipeline { s.(pending := s.pending[node := c]) }

  predicate Opens(h: Hasher, s: Pipeline, node: Name, secret: Secret) {
    node in s.awaiting && h(secret) == s.awaiting[node]
  }

  function RevealOf(h: Hasher, s: Pipeline, node: Name, secret: Secret): Pipeline {
    if Opens(h, s, node, secret) then s.(staged := s.staged[node := secret]) else s
  }

  function ValuesIn<V>(order: seq<Name>, m: map<Name, V>): seq<V>
    requires forall n | n in order :: n in m
  {
    seq(|order|, i requires 0 <= i < |order| => m[order[i]])
  }

  function KeysFrom(h: Hasher, staged: map<Name, Secret>): map<Name, ByteString> {
    map n | n in staged :: Hex(h(staged[n]))
  }

  function RollOf(h: Hasher, s: Pipeline): Pipeline {
    Pipeline(SeedOf(h, s.seed, ValuesIn(Ascending(s.staged.Keys), s.staged)), KeysFrom(h, s.staged), map[], s.pending, map[])
  }

  function Secrets(s: Pipeline): seq<Secret> { ValuesIn(Ascending(s.staged.Keys), s.staged) }

  /** Two epochs in which as many secrets are staged end with the same beacon exactly if they began with the same
      one and staged the same bag of secrets, whoever staged them. */
  lemma RollBinds(h: Hasher, s: Pipeline, t: Pipeline)
    requires |s.staged| == |t.staged| && SeedsApart(h, s.seed, Secrets(s), t.seed, Secrets(t))
    ensures RollOf(h, s).seed == RollOf(h, t).seed <==> s.seed == t.seed && multiset(Secrets(s)) == multiset(Secrets(t))
  {
    SeedBinds(h, s.seed, Secrets(s), t.seed, Secrets(t));
  }

  class BeaconState {
    const sha: Hasher
    var beacon: Digest
    var activeKeys: map<Name, ByteString>
    var pending: map<Name, Digest>
    var awaiting: map<Name, Digest>
    var staged: map<Name, Secret>

    ghost function State(): Pipeline reads this { Pipeline(beacon, activeKeys, pending, awaiting, staged) }

    constructor (h: Hasher, genesis: Digest)
      ensures sha == h && State() == Genesis(genesis)
    {
      sha, beacon := h, genesis;
      activeKeys, pending, awaiting, staged := map[], map[], map[], map[];
    }

    method Commit(node: Name, commitment: Digest)
      modifies this
      ensures State() == CommitOf(old(State()), node, commitment)
    {
      pending := pending[node := commitment];
    }

    method Reveal(node: Name, secret: Secret) returns (accepted: bool)
      modifies this
      ensures State() == RevealOf(sha, old(State()), node, secret)
      ensures accepted == Opens(sha, old(State()), node, secret)
    {
      if node in awaiting && sha(secret) == awaiting[node] {
        staged := staged[node := secret];
        return true;
      }
      return false;
    }

    method Roll()
      modifies this
      ensures State() == RollOf(sha, old(State()))
    {
      var contributions := ValuesIn(Ascending(staged.Keys), staged);
      beacon := BeaconSeed(sha, beacon, contributions);
      activeKeys := KeysFrom(sha, staged);
      awaiting, pending := pending, map[];
      staged := map[];
    }
  }

  // ---------------------------------------------------------------- histories

  datatype Op = Commit(node: Name, commitment: Digest) | Reveal(node: Name, secret: Secret)

  function Apply(h: Hasher, s: Pipeline, op: Op): Pipeline {
    match op
    case Commit(n, c) => CommitOf(s, n, c)
    case Reveal(n, x) => RevealOf(h, s, n, x)
  }

  function Within(h: Hasher, s: Pipeline, ops: seq<Op>): Pipeline {
    if ops == [] then s else Apply(h, Within(h, s, ops[..|ops| - 1]), ops[|ops| - 1])
  }

  /** The state after whole epochs, each closed by a roll. */
  function Through(h: Hasher, genesis: Digest, epochs: seq<seq<Op>>): Pipeline {
    if epochs == [] then Genesis(genesis)
    else RollOf(h, Within(h, Through(h, genesis, epochs[..|epochs| - 1]), epochs[|epochs| - 1]))
  }

  /** The state in which epoch `i` is closed. */
  function Closing(h: Hasher, genesis: Digest, epochs: seq<seq<Op>>, i: nat): Pipeline requires i < |epochs| {
    Within(h, Through(h, genesis, epochs[..i]), epochs[i])
  }

  ghost predicate ClosingsApart(h: Hasher, g: Digest, a: seq<seq<Op>>, g': Digest, b: seq<seq<Op>>, i: nat)
    requires i < |a| == |b|
  {
    var s, t := Closing(h, g, a, i), Closing(h, g', b, i);
    |s.staged| == |t.staged| && SeedsApart(h, s.seed, Secrets(s), t.seed, Secrets(t))
  }

  lemma ClosingOfPrefix(h: Hasher, g: Digest, epochs: seq<seq<Op>>, n: nat, i: nat)
    requires i < n <= |epochs|
    ensures Closing(h, g, epochs[..n], i) == Closing(h, g, epochs, i)
  {
    assert epochs[..n][..i] == epochs[..i];
  }

  lemma {:induction false} WithinKeepsSeed(h: Hasher, s: Pipeline, ops: seq<Op>)
    ensures Within(h, s, ops).seed == s.seed
  {
    if ops != [] { WithinKeepsSeed(h, s, ops[..|ops| - 1]); }
  }

  lemma EpochBinds(h: Hasher, g: Digest, a: seq<seq<Op>>, g': Digest, b: seq<seq<Op>>)
    requires |a| == |b| > 0 && ClosingsApart(h, g, a, g', b, |a| - 1)
    ensures var n := |a| - 1;
      Through(h, g, a).seed == Through(h, g', b).seed <==>
      Through(h, g, a[..n]).seed == Through(h, g', b[..n]).seed && SameSecrets(h, g, a, g', b, n)
  {
    hide SeedsApart, Within, RollOf, Secrets;
    var n := |a| - 1;
    RollBinds(h, Closing(h, g, a, n), Closing(h, g', b, n));
    WithinKeepsSeed(h, Through(h, g, a[..n]), a[n]);
    WithinKeepsSeed(h, Through(h, g', b[..n]), b[n]);
  }

  /** The same bag of secrets is staged in epoch `i`. */
  ghost predicate SameSecrets(h: Hasher, g: Digest, a: seq<seq<Op>>, g': Digest, b: seq<seq<Op>>, i: nat)
    requires i < |a| == |b|
  {
    multiset(Secrets(Closing(h, g, a, i))) == multiset(Secrets(Closing(h, g', b, i)))
  }

  lemma EpochOfPrefix(h: Hasher, g: Digest, a: seq<seq<Op>>, g': Digest, b: seq<seq<Op>>, n: nat, i: nat)
    requires i < n <= |a| == |b|
    ensures ClosingsApart(h, g, a[..n], g', b[..n], i) == ClosingsApart(h, g, a, g', b, i)
    ensures SameSecrets(h, g, a[..n], g', b[..n], i) == SameSecrets(h, g, a, g', b, i)
  {
    ClosingOfPrefix(h, g, a, n, i);
    ClosingOfPrefix(h, g', b, n, i);
    hide SeedsApart, Secrets, Closing;
  }

  ghost predicate HistoriesApart(h: Hasher, g: Digest, a: seq<seq<Op>>, g': Digest, b: seq<seq<Op>>) {
    |a| == |b| && forall i | 0 <= i < |a| :: ClosingsApart(h, g, a, g', b, i)
  }

  ghost predicate SameBags(h: Hasher, g: Digest, a: seq<seq<Op>>, g': Digest, b: seq<seq<Op>>) requires |a| == |b| {
    forall i | 0 <= i < |a| :: SameSecrets(h, g, a, g', b, i)
  }

  lemma HistoriesBefore(h: Hasher, g: Digest, a: seq<seq<Op>>, g': Digest, b: seq<seq<Op>>)
    requires a != [] && HistoriesApart(h, g, a, g', b)
    ensures var n := |a| - 1;
      && HistoriesApart(h, g, a[..n], g', b[..n]) && ClosingsApart(h, g, a, g', b, n)
      && (SameBags(h, g, a, g', b) <==> SameBags(h, g, a[..n], g', b[..n]) && SameSecrets(h, g, a, g', b, n))
  {
    hide ClosingsApart, SameSecrets;
    var n := |a| - 1;
    forall i | 0 <= i < n
      ensures ClosingsApart(h, g, a[..n], g', b[..n], i)
      ensures SameSecrets(h, g, a[..n], g', b[..n], i) == SameSecrets(h, g, a, g', b, i)
    {
      EpochOfPrefix(h, g, a, g', b, n, i);
    }
  }

  /** THE BEACON COMMITS TO ITS HISTORY. Two histories that stage as many secrets in every epoch end with the same
      beacon exactly if they have the same genesis and staged the same bag of secrets in every epoch. */
  lemma {:induction false} HistoryBinds(h: Hasher, g: Digest, a: seq<seq<Op>>, g': Digest, b: seq<seq<Op>>)
    requires HistoriesApart(h, g, a, g', b)
    ensures Through(h, g, a).seed == Through(h, g', b).seed <==> g == g' && SameBags(h, g, a, g', b)
    decreases |a|
  {
    if a != [] {
      hide HistoriesApart, ClosingsApart, SameBags, SameSecrets, Through;
      HistoriesBefore(h, g, a, g', b);
      HistoryBinds(h, g, a[..|a| - 1], g', b[..|a| - 1]);
      EpochBinds(h, g, a, g', b);
    }
  }

  function LastCommit(ops: seq<Op>, node: Name): Option<Digest> {
    if ops == [] then None
    else
      var op := ops[|ops| - 1];
      if op.Commit? && op.node == node then Some(op.commitment) else LastCommit(ops[..|ops| - 1], node)
  }

  /** The last secret `node` revealed in `ops` that hashes to `c`. */
  function LastOpening(h: Hasher, ops: seq<Op>, node: Name, c: Digest): (r: Option<Secret>)
    ensures r.Some? ==> h(r.value) == c && Reveal(node, r.value) in ops
    ensures r.None? ==> forall x | Reveal(node, x) in ops :: h(x) != c
  {
    if ops == [] then None
    else
      var op := ops[|ops| - 1];
      if op.Reveal? && op.node == node && h(op.secret) == c then Some(op.secret)
      else
        assert ops == ops[..|ops| - 1] + [op];
        LastOpening(h, ops[..|ops| - 1], node, c)
  }

  lemma {:induction false} WithinEpoch(h: Hasher, s: Pipeline, ops: seq<Op>, node: Name)
    requires s.pending == map[] && s.staged == map[]
    ensures var t := Within(h, s, ops);
      && t.seed == s.seed && t.active == s.active && t.awaiting == s.awaiting
      && (node in t.pending <==> LastCommit(ops, node).Some?)
      && (node in t.pending ==> Some(t.pending[node]) == LastCommit(ops, node))
      && (node in t.staged <==> node in s.awaiting && LastOpening(h, ops, node, s.awaiting[node]).Some?)
      && (node in t.staged ==> Some(t.staged[node]) == LastOpening(h, ops, node, s.awaiting[node]))
    decreases |ops|
  {
    if ops != [] {
      WithinEpoch(h, s, ops[..|ops| - 1], node);
    }
  }

  lemma {:induction false} AfterRoll(h: Hasher, genesis: Digest, epochs: seq<seq<Op>>, node: Name)
    requires epochs != []
    ensures var s, n := Through(h, genesis, epochs), |epochs|;
      && s.pending == map[] && s.staged == map[]
      && (node in s.awaiting <==> LastCommit(epochs[n - 1], node).Some?)
      && (node in s.awaiting ==> Some(s.awaiting[node]) == LastCommit(epochs[n - 1], node))
    decreases |epochs|
  {
    var n := |epochs|;
    var before := Through(h, genesis, epochs[..n - 1]);
    if n > 1 { AfterRoll(h, genesis, epochs[..n - 1], node); }
    WithinEpoch(h, before, epochs[n - 1], node);
  }

  /** The last commitment of epoch `e - 2`, if it was opened in epoch `e - 1`. */
  function OpenedCommitment(h: Hasher, epochs: seq<seq<Op>>, node: Name): Option<Digest> {
    if |epochs| < 2 then None
    else
      var c := LastCommit(epochs[|epochs| - 2], node);
      if c.Some? && LastOpening(h, epochs[|epochs| - 1], node, c.value).Some? then c else None
  }

  lemma ActiveAfterRoll(h: Hasher, s: Pipeline, node: Name)
    ensures node in RollOf(h, s).active <==> node in s.staged
    ensures node in RollOf(h, s).active ==> RollOf(h, s).active[node] == Hex(h(s.staged[node]))
  {
    hide Hex, SeedOf;
  }

  lemma ActiveAtStart(h: Hasher, genesis: Digest, epochs: seq<seq<Op>>, node: Name)
    ensures var active, c := Through(h, genesis, epochs).active, OpenedCommitment(h, epochs, node);
      (node in active <==> c.Some?) && (node in active ==> active[node] == Hex(c.value))
  {
    hide Hex, LastCommit, LastOpening, Within, RollOf;
    var e := |epochs|;
    if e > 0 {
      var before := Through(h, genesis, epochs[..e - 1]);
      if e >= 2 {
        AfterRoll(h, genesis, epochs[..e - 1], node);
        assert epochs[..e - 1][e - 2] == epochs[e - 2];
      }
      WithinEpoch(h, before, epochs[e - 1], node);
      ActiveAfterRoll(h, Within(h, before, epochs[e - 1]), node);
    }
  }

  lemma StartsClean(h: Hasher, genesis: Digest, epochs: seq<seq<Op>>)
    ensures Through(h, genesis, epochs).pending == map[] == Through(h, genesis, epochs).staged
  {
    hide SeedOf, KeysFrom, Within;
  }

  /** BEACON LOCKING. At any moment of epoch `e`, a node has an active key exactly when it committed in
      epoch `e - 2` and opened its last commitment there in epoch `e - 1`; the key is that commitment in
      hex, whatever secret opened it. No assumption on the hash function. */
  lemma BeaconLocking(h: Hasher, genesis: Digest, epochs: seq<seq<Op>>, current: seq<Op>, node: Name)
    ensures var active, c := Within(h, Through(h, genesis, epochs), current).active, OpenedCommitment(h, epochs, node);
      (node in active <==> c.Some?) && (node in active ==> active[node] == Hex(c.value))
  {
    hide Hex, LastCommit, LastOpening, Within, Through, OpenedCommitment;
    ActiveAtStart(h, genesis, epochs, node);
    StartsClean(h, genesis, epochs);
    WithinEpoch(h, Through(h, genesis, epochs), current, node);
  }

  /** Nothing done after a commitment's epoch closed can change the key it yields: two histories that
      agree up to epoch `e - 2` give a node the same key in epoch `e`, if they give it one. */
  lemma NoGrinding(h: Hasher, genesis: Digest, a: seq<seq<Op>>, b: seq<seq<Op>>, ca: seq<Op>, cb: seq<Op>, node: Name)
    requires |a| == |b| >= 2 && a[..|a| - 1] == b[..|b| - 1]
    requires node in Within(h, Through(h, genesis, a), ca).active && node in Within(h, Through(h, genesis, b), cb).active
    ensures Within(h, Through(h, genesis, a), ca).active[node] == Within(h, Through(h, genesis, b), cb).active[node]
  {
    BeaconLocking(h, genesis, a, ca, node);
    BeaconLocking(h, genesis, b, cb, node);
    assert a[|a| - 2] == a[..|a| - 1][|a| - 2] == b[..|b| - 1][|b| - 2] == b[|b| - 2];
  }
}
