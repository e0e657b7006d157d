/** The one election of the finality committee: who may sit, which draw is used, and the redraws
    that keep a committee viable. */
module FinalityCommittee {
  import opened Bytes
  import opened Numerals
  import opened Sortition
  import opened Beacon
  import opened Election

  // ---------------------------------------------------------------- one draw

  function PositivePart(rep: map<Name, int>): map<Name, nat> { map n | n in rep && rep[n] > 0 :: rep[n] }

  function SeatsFor(sha: Hasher, key: ByteString, seed: ByteString, tau: nat, r: nat, total: nat): nat
    requires total > 0
  {
    Seats(DrawOf(sha, key, seed), Expected(tau, r, total), SEAT_CAP)
  }

  /** The seats one draw hands out: to accounts with reputation and a key, by their share. */
  function Drawn(sha: Hasher, rep: map<Name, int>, keys: map<Name, ByteString>, seed: ByteString, tau: nat): map<Name, nat> {
    var p := PositivePart(rep);
    var total := Mass(p);
    if total == 0 then map[]
    else map n | n in p && n in keys && SeatsFor(sha, keys[n], seed, tau, p[n], total) > 0
           :: SeatsFor(sha, keys[n], seed, tau, p[n], total)
  }

  /** What one node draws: nothing without reputation, or without a key. */
  method SeatsDrawn(
    sha: Hasher, rep: map<Name, int>, keys: map<Name, ByteString>, seed: ByteString, tau: nat, total: nat, node: Name
  ) returns (seats: nat)
    requires total == Mass(PositivePart(rep)) > 0 && node in rep
    ensures seats == var drawn := Drawn(sha, rep, keys, seed, tau); if node in drawn then drawn[node] else 0
    ensures seats > 0 <==> node in Drawn(sha, rep, keys, seed, tau)
  {
    var r := rep[node];
    if r <= 0 || node !in keys { return 0; }
    var value := VrfValue(sha, keys[node], seed);
    seats := SortitionSeats(value, Expected(tau, r, total), SEAT_CAP);
  }

  /** The seats of the nodes that have had their turn. */
  ghost function Handed(drawn: map<Name, nat>, todo: set<Name>): map<Name, nat> {
    map n | n in drawn && n !in todo :: drawn[n]
  }

  lemma OneMoreHanded(drawn: map<Name, nat>, todo: set<Name>, node: Name)
    requires node in todo
    ensures Handed(drawn, todo - {node}) ==
      if node in drawn then Handed(drawn, todo)[node := drawn[node]] else Handed(drawn, todo)
  {}

  lemma HandedEnds(drawn: map<Name, nat>, all: set<Name>)
    requires drawn.Keys <= all
    ensures Handed(drawn, all) == map[] && Handed(drawn, {}) == drawn
  {}

  method ElectCommittee(sha: Hasher, rep: map<Name, int>, keys: map<Name, ByteString>, seed: ByteString, tau: nat)
    returns (committee: map<Name, nat>)
    ensures committee == Drawn(sha, rep, keys, seed, tau)
  {
    committee := map[];
    var total := TotalReputation(rep);
    if total <= 0 { return; }
    var todo := rep.Keys;
    ghost var drawn := Drawn(sha, rep, keys, seed, tau);
    HandedEnds(drawn, rep.Keys);
    hide Drawn, Mass, PositivePart, Handed;
    while todo != {}
      invariant todo <= rep.Keys && committee == Handed(drawn, todo)
      decreases |todo|
    {
      var node :| node in todo;
      OneMoreHanded(drawn, todo, node);
      todo := todo - {node};
      var seats := SeatsDrawn(sha, rep, keys, seed, tau, total, node);
      if seats > 0 {
        committee := committee[node := seats];
      }
    }
  }

  method TotalReputation(rep: map<Name, int>) returns (total: nat)
    ensures total == Mass(PositivePart(rep))
  {
    total := 0;
    var todo := rep.Keys;
    assert rep - todo == map[];
    assert PositivePart(map[]) == map[];
    while todo != {}
      invariant todo <= rep.Keys && total == Mass(PositivePart(rep - todo))
      decreases |todo|
    {
      var node :| node in todo;
      ghost var before := PositivePart(rep - todo);
      todo := todo - {node};
      ghost var after := PositivePart(rep - todo);
      if rep[node] > 0 {
        total := total + rep[node];
        assert after - {node} == before;
        MassWithout(after, node);
      } else {
        assert after == before;
      }
    }
    assert rep - todo == rep;
  }

  /** A draw seats only accounts with positive reputation and a key. */
  lemma DrawnAreEligible(sha: Hasher, rep: map<Name, int>, keys: map<Name, ByteString>, seed: ByteString, tau: nat)
    ensures forall n | n in Drawn(sha, rep, keys, seed, tau) :: n in rep && rep[n] > 0 && n in keys
  {}

  /** What a draw depends on: the positive reputations, and the keys of those accounts. */
  lemma DrawnDependsOnPositive(
    sha: Hasher, rep: map<Name, int>, keys: map<Name, ByteString>, rep': map<Name, int>, keys': map<Name, ByteString>,
    seed: ByteString, tau: nat
  )
    requires PositivePart(rep) == PositivePart(rep')
    requires forall n | n in PositivePart(rep) :: (n in keys <==> n in keys') && (n in keys ==> keys[n] == keys'[n])
    ensures Drawn(sha, rep, keys, seed, tau) == Drawn(sha, rep', keys', seed, tau)
  {}

  // ---------------------------------------------------------------- the electorate

  type Account = ByteString

  /** On-chain inputs: reputation snapshot, accounts with a bound node, committed beacon keys. */
  datatype Inputs = Inputs(reputation: seq<(Account, int)>, bound: seq<Account>, committed: seq<(Account, ByteString)>)

  datatype Draw = Draw(sha: Hasher, beaconSeed: Digest, epoch: nat, tau: nat, prefix: ByteString)

  function Bound(reputation: seq<(Account, int)>, bound: set<Account>): (r: seq<(Account, int)>)
    ensures forall e :: e in r <==> e in reputation && e.0 in bound
  {
    if reputation == [] then []
    else
      var e := reputation[|reputation| - 1];
      assert reputation == reputation[..|reputation| - 1] + [e];
      Bound(reputation[..|reputation| - 1], bound) + if e.0 in bound then [e] else []
  }

  function AsSet(s: seq<Account>): set<Account> { set a | a in s }

  function KeyMap(committed: seq<(Account, ByteString)>): map<Account, ByteString> {
    if committed == [] then map[]
    else KeyMap(committed[..|committed| - 1])[committed[|committed| - 1].0 := committed[|committed| - 1].1]
  }

  function CountReputable(f: seq<(Account, int)>): nat {
    if f == [] then 0 else CountReputable(f[..|f| - 1]) + if f[|f| - 1].1 > 0 then 1 else 0
  }

  function CountCommitted(f: seq<(Account, int)>, kmap: map<Account, ByteString>): nat {
    if f == [] then 0
    else CountCommitted(f[..|f| - 1], kmap) + if f[|f| - 1].1 > 0 && f[|f| - 1].0 in kmap then 1 else 0
  }

  function AtMost4(n: nat): nat { if n < 4 then n else 4 }

  predicate UsesBeacon(f: seq<(Account, int)>, committed: seq<(Account, ByteString)>) {
    var want := AtMost4(CountReputable(f));
    committed != [] && want != 0 && CountCommitted(f, KeyMap(committed)) >= want
  }

  const SK_PREFIX: ByteString := [115, 107, 45]
  const DASH: ByteString := [45]
  const RETRY: ByteString := [45, 114, 101, 116, 114, 121, 45]

  /** The sortition key of an account, if it has one in this mode. */
  function KeyFor(a: Account, beacon: bool, kmap: map<Account, ByteString>): Option<ByteString> {
    if !beacon then Some(SK_PREFIX + Hex(a)) else if a in kmap then Some(kmap[a]) else None
  }

  function RepById(f: seq<(Account, int)>, beacon: bool, kmap: map<Account, ByteString>): map<Name, int> {
    if f == [] then map[]
    else
      var e, rest := f[|f| - 1], RepById(f[..|f| - 1], beacon, kmap);
      if KeyFor(e.0, beacon, kmap).Some? then rest[Hex(e.0) := e.1] else rest
  }

  function KeysById(f: seq<(Account, int)>, beacon: bool, kmap: map<Account, ByteString>): map<Name, ByteString> {
    if f == [] then map[]
    else
      var e, rest := f[|f| - 1], KeysById(f[..|f| - 1], beacon, kmap);
      if KeyFor(e.0, beacon, kmap).Some? then rest[Hex(e.0) := KeyFor(e.0, beacon, kmap).value] else rest
  }

  function Decimal(n: nat): ByteString {
    if n < 10 then [48 + n] else Decimal(n / 10) + [48 + n % 10]
  }

  function SeedFor(d: Draw, beacon: bool): ByteString {
    d.prefix + DASH + if beacon then Hex(d.beaconSeed) else Decimal(d.epoch)
  }

  /** The seed of draw number `i`: the epoch's own, or salted for its i-th redraw. */
  function TrySeed(seed: ByteString, i: nat): ByteString { if i == 0 then seed else seed + RETRY + Decimal(i) }

  function Try(d: Draw, rep: map<Name, int>, keys: map<Name, ByteString>, seed: ByteString, i: nat): map<Name, nat> {
    Drawn(d.sha, rep, keys, TrySeed(seed, i), d.tau)
  }

  type Draws = nat -> map<Name, nat>

  /** The draw kept after `retry` redraws: redrawn while below the floor, at most 32 times. */
  function Redrawn(draws: Draws, floor: nat, best: map<Name, nat>, retry: nat): map<Name, nat>
    decreases MAX_RETRIES - retry
  {
    if |best| >= floor || retry >= MAX_RETRIES then best
    else
      Redrawn(draws, floor, Larger(best, draws(retry + 1)), retry + 1)
  }

  lemma RedrawStep(draws: Draws, floor: nat, best: map<Name, nat>, retry: nat)
    ensures |best| < floor && retry < MAX_RETRIES ==>
              Redrawn(draws, floor, best, retry) == Redrawn(draws, floor, Larger(best, draws(retry + 1)), retry + 1)
    ensures |best| >= floor || retry >= MAX_RETRIES ==> Redrawn(draws, floor, best, retry) == best
  {}

  function Larger(best: map<Name, nat>, redraw: map<Name, nat>): map<Name, nat> {
    if |redraw| > |best| then redraw else best
  }

  function DrawsOf(d: Draw, rep: map<Name, int>, keys: map<Name, ByteString>, seed: ByteString): Draws {
    (i: nat) => Try(d, rep, keys, seed, i)
  }

  function FloorOf(rep: map<Name, int>): nat { AtMost4(|PositivePart(rep)|) }

  function BestDraw(draws: Draws, floor: nat): map<Name, nat> { Redrawn(draws, floor, draws(0), 0) }

  function CommitteeOf(d: Draw, x: Inputs, halted: bool): set<Account> {
    var f := Bound(x.reputation, AsSet(x.bound));
    if halted || f == [] then {} else SeatedFrom(d, f, UsesBeacon(f, x.committed), KeyMap(x.committed))
  }

  function BestOf(d: Draw, f: seq<(Account, int)>, beacon: bool, kmap: map<Account, ByteString>): map<Name, nat> {
    var rep := RepById(f, beacon, kmap);
    BestDraw(DrawsOf(d, rep, KeysById(f, beacon, kmap), SeedFor(d, beacon)), FloorOf(rep))
  }

  function SeatedFrom(d: Draw, f: seq<(Account, int)>, beacon: bool, kmap: map<Account, ByteString>): set<Account> {
    Members(f, BestOf(d, f, beacon, kmap))
  }

  function Members(f: seq<(Account, int)>, best: map<Name, nat>): set<Account> {
    set e | e in f && Hex(e.0) in best :: e.0
  }

  method EligibleMaps(f: seq<(Account, int)>, beacon: bool, kmap: map<Account, ByteString>)
    returns (rep: map<Name, int>, keys: map<Name, ByteString>)
    ensures rep == RepById(f, beacon, kmap) && keys == KeysById(f, beacon, kmap)
  {
    rep, keys := map[], map[];
    for i := 0 to |f|
      invariant rep == RepById(f[..i], beacon, kmap) && keys == KeysById(f[..i], beacon, kmap)
    {
      assert f[..i + 1][..i] == f[..i];
      var key := KeyFor(f[i].0, beacon, kmap);
      if key.Some? {
        var id := Hex(f[i].0);
        keys := keys[id := key.value];
        rep := rep[id := f[i].1];
      }
    }
    assert f[..|f|] == f;
  }

  method DrawWithFloor(d: Draw, rep: map<Name, int>, keys: map<Name, ByteString>, seed: ByteString)
    returns (best: map<Name, nat>)
    ensures best == BestDraw(DrawsOf(d, rep, keys, seed), FloorOf(rep))
  {
    hide Drawn, Decimal, FloorOf, Redrawn;
    ghost var draws := DrawsOf(d, rep, keys, seed);
    best := ElectCommittee(d.sha, rep, keys, seed, d.tau);
    var floor := FloorOf(rep);
    var retry := 0;
    while |best| < floor && retry < MAX_RETRIES
      invariant 0 <= retry <= MAX_RETRIES
      invariant BestDraw(draws, floor) == Redrawn(draws, floor, best, retry)
      decreases MAX_RETRIES - retry
    {
      retry := retry + 1;
      var redraw := ElectCommittee(d.sha, rep, keys, seed + RETRY + Decimal(retry), d.tau);
      assert redraw == draws(retry);
      RedrawStep(draws, floor, best, retry - 1);
      best := Larger(best, redraw);
    }
    RedrawStep(draws, floor, best, retry);
  }

  method ElectFinalityCommittee(d: Draw, x: Inputs, halted: bool) returns (committee: set<Account>)
    ensures committee == CommitteeOf(d, x, halted)
  {
    var f := Bound(x.reputation, AsSet(x.bound));
    if halted || f == [] { return {}; }
    var kmap := KeyMap(x.committed);
    var want := AtMost4(CountReputable(f));
    var beacon := false;
    if x.committed != [] && want != 0 {
      beacon := CountCommitted(f, kmap) >= want;
    }
    var rep, keys := EligibleMaps(f, beacon, kmap);
    var best := DrawWithFloor(d, rep, keys, SeedFor(d, beacon));
    committee := set e | e in f && Hex(e.0) in best :: e.0;
  }

  // ---------------------------------------------------------------- the liveness floor

  ghost predicate DrawsMade(draws: Draws, made: seq<map<Name, nat>>) {
    1 <= |made| <= MAX_RETRIES + 1 && forall i | 0 <= i < |made| :: made[i] == draws(i)
  }

  predicate EarliestLargest(made: seq<map<Name, nat>>, best: map<Name, nat>, k: nat) {
    && k < |made| && best == made[k]
    && (forall i | 0 <= i < |made| :: |made[i]| <= |best|)
    && (forall i | 0 <= i < k :: |made[i]| < |best|)
  }

  predicate AllBelow(made: seq<map<Name, nat>>, floor: nat) { forall i | 0 <= i < |made| :: |made[i]| < floor }

  lemma OneMore(draws: Draws, floor: nat, best: map<Name, nat>, made: seq<map<Name, nat>>, k: nat) returns (k': nat)
    requires DrawsMade(draws, made) && EarliestLargest(made, best, k) && |best| < floor && |made| <= MAX_RETRIES
    ensures DrawsMade(draws, made + [draws(|made|)]) && AllBelow(made, floor)
    ensures EarliestLargest(made + [draws(|made|)], Larger(best, draws(|made|)), k')
  {
    k' := if |draws(|made|)| > |best| then |made| else k;
  }

  lemma {:induction false} RedrawnIsBest(draws: Draws, floor: nat, best: map<Name, nat>, made: seq<map<Name, nat>>, k: nat)
    returns (made': seq<map<Name, nat>>, k': nat)
    requires DrawsMade(draws, made) && EarliestLargest(made, best, k)
    requires AllBelow(made[..|made| - 1], floor)
    ensures DrawsMade(draws, made') && EarliestLargest(made', Redrawn(draws, floor, best, |made| - 1), k')
    ensures |Redrawn(draws, floor, best, |made| - 1)| >= floor || |made'| == MAX_RETRIES + 1
    ensures AllBelow(made'[..|made'| - 1], floor)
    decreases MAX_RETRIES + 1 - |made|
  {
    if |best| >= floor || |made| > MAX_RETRIES {
      return made, k;
    }
    var next := made + [draws(|made|)];
    assert next[..|next| - 1] == made;
    var l := OneMore(draws, floor, best, made, k);
    RedrawStep(draws, floor, best, |made| - 1);
    hide Redrawn, DrawsMade, EarliestLargest, AllBelow, Larger;
    made', k' := RedrawnIsBest(draws, floor, Larger(best, draws(|made|)), next, l);
  }

  /** The draw kept is the earliest largest of the draws made; drawing stops at the first draw that
      reaches the floor and never goes past 32 redraws, so the set never shrinks. */
  lemma RedrawsNeverShrink(draws: Draws, floor: nat) returns (made: seq<map<Name, nat>>, k: nat)
    ensures DrawsMade(draws, made) && EarliestLargest(made, BestDraw(draws, floor), k)
    ensures |BestDraw(draws, floor)| >= floor || |made| == MAX_RETRIES + 1
    ensures AllBelow(made[..|made| - 1], floor)
  {
    made, k := RedrawnIsBest(draws, floor, draws(0), [draws(0)], 0);
  }

  // ---------------------------------------------------------------- who may sit

  lemma {:induction false} RepByIdHasOwner(f: seq<(Account, int)>, beacon: bool, kmap: map<Account, ByteString>, id: Name)
    requires id in RepById(f, beacon, kmap)
    ensures exists e :: e in f && Hex(e.0) == id && KeyFor(e.0, beacon, kmap).Some? && RepById(f, beacon, kmap)[id] == e.1
  {
    var e := f[|f| - 1];
    if !(KeyFor(e.0, beacon, kmap).Some? && Hex(e.0) == id) { RepByIdHasOwner(f[..|f| - 1], beacon, kmap, id); }
  }

  lemma BestIsEligible(d: Draw, rep: map<Name, int>, keys: map<Name, ByteString>, seed: ByteString, id: Name)
    requires id in BestDraw(DrawsOf(d, rep, keys, seed), FloorOf(rep))
    ensures id in rep && rep[id] > 0
  {
    var made, k := RedrawsNeverShrink(DrawsOf(d, rep, keys, seed), FloorOf(rep));
    assert made[k] == Try(d, rep, keys, seed, k);
    DrawnAreEligible(d.sha, rep, keys, TrySeed(seed, k), d.tau);
  }

  /** Only an account with a node bound to it, with positive reputation and, in beacon mode, with a
      committed key, ever sits. */
  lemma MembersAreEligible(d: Draw, x: Inputs, halted: bool, a: Account)
    requires a in CommitteeOf(d, x, halted)
    ensures !halted && a in x.bound
    ensures exists r :: r > 0 && (a, r) in x.reputation
    ensures UsesBeacon(Bound(x.reputation, AsSet(x.bound)), x.committed) ==> a in KeyMap(x.committed)
  {
    var f := Bound(x.reputation, AsSet(x.bound));
    var beacon, kmap := UsesBeacon(f, x.committed), KeyMap(x.committed);
    var rep, keys := RepById(f, beacon, kmap), KeysById(f, beacon, kmap);
    BestIsEligible(d, rep, keys, SeedFor(d, beacon), Hex(a));
    RepByIdHasOwner(f, beacon, kmap, Hex(a));
    var e :| e in f && Hex(e.0) == Hex(a) && KeyFor(e.0, beacon, kmap).Some? && rep[Hex(a)] == e.1;
    HexInjective(e.0, a);
    assert (a, e.1) in x.reputation;
  }

  // ---------------------------------------------------------------- what the election depends on

  predicate DistinctAccounts<T>(s: seq<(Account, T)>) {
    forall i, j | 0 <= i < j < |s| :: s[i].0 != s[j].0
  }

  lemma {:induction false} BoundKeepsDistinct(s: seq<(Account, int)>, bound: set<Account>)
    requires DistinctAccounts(s)
    ensures DistinctAccounts(Bound(s, bound))
  {
    if s != [] {
      var t := s[..|s| - 1];
      BoundKeepsDistinct(t, bound);
      forall e | e in Bound(t, bound) ensures e.0 != s[|s| - 1].0 { assert e in t; }
    }
  }

  lemma {:induction false} KeyMapLooksUp(s: seq<(Account, ByteString)>, a: Account, k: ByteString)
    requires DistinctAccounts(s)
    ensures (a, k) in s <==> a in KeyMap(s) && KeyMap(s)[a] == k
  {
    if s != [] {
      var t, z := s[..|s| - 1], s[|s| - 1];
      KeyMapLooksUp(t, a, k);
      assert s == t + [z];
      assert forall i | 0 <= i < |t| :: s[i].0 != z.0;
    }
  }

  /** The entries of the list that are reputable, and those of them whose account committed. */
  function ReputableAt(f: seq<(Account, int)>): set<nat> { set i: nat | i < |f| && f[i].1 > 0 }

  function CommittedAt(f: seq<(Account, int)>, kmap: map<Account, ByteString>): set<nat> {
    set i: nat | i < |f| && f[i].1 > 0 && f[i].0 in kmap
  }

  lemma EntriesGrow(f: seq<(Account, int)>, z: (Account, int), kmap: map<Account, ByteString>)
    ensures ReputableAt(f + [z]) == ReputableAt(f) + if z.1 > 0 then {|f|} else {}
    ensures CommittedAt(f + [z], kmap) == CommittedAt(f, kmap) + if z.1 > 0 && z.0 in kmap then {|f|} else {}
  {}

  lemma {:induction false} EntriesCounted(f: seq<(Account, int)>, kmap: map<Account, ByteString>)
    ensures CountReputable(f) == |ReputableAt(f)| && CountCommitted(f, kmap) == |CommittedAt(f, kmap)|
  {
    if f != [] {
      var t, z := f[..|f| - 1], f[|f| - 1];
      EntriesCounted(t, kmap);
      EntriesGrow(t, z, kmap);
      assert f == t + [z];
      assert |t| !in ReputableAt(t) && |t| !in CommittedAt(t, kmap);
      hide ReputableAt, CommittedAt;
    }
  }

  lemma {:induction false} NoKeysFromNone(f: seq<(Account, int)>)
    ensures CountCommitted(f, KeyMap([])) == 0
  {
    if f != [] { NoKeysFromNone(f[..|f| - 1]); }
  }

  /** Beacon mode is on exactly when some entry of a bound account has positive reputation and at least
      min(4, reputable) of the reputable entries belong to accounts with a committed key. */
  lemma BeaconModeNeedsCommitters(x: Inputs)
    ensures var f, kmap := Bound(x.reputation, AsSet(x.bound)), KeyMap(x.committed);
            UsesBeacon(f, x.committed) <==>
              ReputableAt(f) != {} && |CommittedAt(f, kmap)| >= AtMost4(|ReputableAt(f)|)
  {
    var f, kmap := Bound(x.reputation, AsSet(x.bound)), KeyMap(x.committed);
    EntriesCounted(f, kmap);
    if x.committed == [] { NoKeysFromNone(f); }
  }

  // ---------------------------------------------------------------- standing

  /** The reputation an account elects with: its last entry, if that is positive. */
  function Standing(f: seq<(Account, int)>, a: Account): nat {
    if f == [] then 0
    else
      var e := f[|f| - 1];
      if e.0 != a then Standing(f[..|f| - 1], a) else if e.1 > 0 then e.1 else 0
  }

  function Positives(f: seq<(Account, int)>): seq<(Account, int)> {
    if f == [] then [] else Positives(f[..|f| - 1]) + if f[|f| - 1].1 > 0 then [f[|f| - 1]] else []
  }

  lemma {:induction false} StandingIsNamed(f: seq<(Account, int)>, a: Account)
    requires Standing(f, a) > 0
    ensures (a, Standing(f, a) as int) in Positives(f) && (a, Standing(f, a) as int) in f
  {
    var n := |f| - 1;
    if f[n].0 != a { StandingIsNamed(f[..n], a); }
    assert f == f[..n] + [f[n]];
  }

  lemma {:induction false} PositivesAreEntries(f: seq<(Account, int)>, e: (Account, int))
    ensures e in Positives(f) <==> e in f && e.1 > 0
  {
    if f != [] {
      var n := |f| - 1;
      PositivesAreEntries(f[..n], e);
      assert f == f[..n] + [f[n]];
    }
  }

  /** In the maps of the draw an account with a key stands with its standing. */
  lemma {:induction false} SpelledByStanding(f: seq<(Account, int)>, beacon: bool, kmap: map<Account, ByteString>, a: Account)
    requires KeyFor(a, beacon, kmap).Some?
    ensures var rep, keys := RepById(f, beacon, kmap), KeysById(f, beacon, kmap);
      && (Standing(f, a) > 0 ==>
            && Hex(a) in rep && rep[Hex(a)] == Standing(f, a) && Hex(a) in keys && keys[Hex(a)] == KeyFor(a, beacon, kmap).value)
      && (Hex(a) in rep && rep[Hex(a)] > 0 ==> Standing(f, a) == rep[Hex(a)])
  {
    if f != [] {
      var e := f[|f| - 1];
      SpelledByStanding(f[..|f| - 1], beacon, kmap, a);
      if Hex(e.0) == Hex(a) { HexInjective(e.0, a); }
    }
  }

  /** Every reputable identifier of one draw is an account that stands. */
  lemma OwnerStands(f: seq<(Account, int)>, beacon: bool, kmap: map<Account, ByteString>, id: Name) returns (a: Account)
    requires id in RepById(f, beacon, kmap) && RepById(f, beacon, kmap)[id] > 0
    ensures Hex(a) == id && KeyFor(a, beacon, kmap).Some? && Standing(f, a) == RepById(f, beacon, kmap)[id]
  {
    RepByIdHasOwner(f, beacon, kmap, id);
    var e :| e in f && Hex(e.0) == id && KeyFor(e.0, beacon, kmap).Some? && RepById(f, beacon, kmap)[id] == e.1;
    a := e.0;
    SpelledByStanding(f, beacon, kmap, a);
  }

  ghost predicate SameStanding(f: seq<(Account, int)>, g: seq<(Account, int)>) { forall a :: Standing(f, a) == Standing(g, a) }

  /** The same keys for every account that stands. */
  ghost predicate SameFor(f: seq<(Account, int)>, kf: map<Account, ByteString>, kg: map<Account, ByteString>) {
    forall a | Standing(f, a) > 0 :: (a in kf <==> a in kg) && (a in kf ==> kf[a] == kg[a])
  }

  lemma SpelledInBoth(
    f: seq<(Account, int)>, g: seq<(Account, int)>, beacon: bool, kf: map<Account, ByteString>, kg: map<Account, ByteString>, id: Name
  )
    requires SameStanding(f, g) && SameFor(f, kf, kg)
    ensures var rf, rg, xf, xg := RepById(f, beacon, kf), RepById(g, beacon, kg), KeysById(f, beacon, kf), KeysById(g, beacon, kg);
            id in rf && rf[id] > 0 ==> id in rg && rg[id] == rf[id] && id in xf && id in xg && xf[id] == xg[id]
  {
    var rf := RepById(f, beacon, kf);
    if id in rf && rf[id] > 0 {
      var a := OwnerStands(f, beacon, kf, id);
      assert Standing(f, a) == Standing(g, a);
      assert KeyFor(a, beacon, kg) == KeyFor(a, beacon, kf);
      SpelledByStanding(f, beacon, kf, a);
      SpelledByStanding(g, beacon, kg, a);
    }
  }

  ghost predicate SameDraws(f: Draws, g: Draws) { forall i :: f(i) == g(i) }

  lemma {:induction false} SameBest(f: Draws, g: Draws, floor: nat, best: map<Name, nat>, retry: nat)
    requires SameDraws(f, g)
    ensures Redrawn(f, floor, best, retry) == Redrawn(g, floor, best, retry)
    decreases MAX_RETRIES - retry
  {
    if |best| < floor && retry < MAX_RETRIES {
      RedrawStep(f, floor, best, retry);
      RedrawStep(g, floor, best, retry);
      SameBest(f, g, floor, Larger(best, f(retry + 1)), retry + 1);
    }
  }

  lemma SameMapsSameBest(
    d: Draw, rf: map<Name, int>, xf: map<Name, ByteString>, rg: map<Name, int>, xg: map<Name, ByteString>, seed: ByteString
  )
    requires forall id | id in rf && rf[id] > 0 :: id in rg && rg[id] == rf[id] && id in xf && id in xg && xf[id] == xg[id]
    requires forall id | id in rg && rg[id] > 0 :: id in rf && rf[id] == rg[id]
    ensures BestDraw(DrawsOf(d, rf, xf, seed), FloorOf(rf)) == BestDraw(DrawsOf(d, rg, xg, seed), FloorOf(rg))
  {
    assert PositivePart(rf) == PositivePart(rg);
    var f, g := DrawsOf(d, rf, xf, seed), DrawsOf(d, rg, xg, seed);
    forall i ensures f(i) == g(i) {
      DrawnDependsOnPositive(d.sha, rf, xf, rg, xg, TrySeed(seed, i), d.tau);
    }
    SameBest(f, g, FloorOf(rf), f(0), 0);
  }

  /** The members are the accounts that stand and are drawn. */
  lemma MembersStand(f: seq<(Account, int)>, beacon: bool, kmap: map<Account, ByteString>, best: map<Name, nat>, a: Account)
    requires forall id | id in best :: id in RepById(f, beacon, kmap) && RepById(f, beacon, kmap)[id] > 0
    ensures a in Members(f, best) <==> Standing(f, a) > 0 && Hex(a) in best
  {
    if Hex(a) in best {
      var o := OwnerStands(f, beacon, kmap, Hex(a));
      HexInjective(o, a);
      if Standing(f, a) > 0 { StandingIsNamed(f, a); }
    }
  }

  lemma BestStand(d: Draw, f: seq<(Account, int)>, beacon: bool, kmap: map<Account, ByteString>)
    ensures forall id | id in BestOf(d, f, beacon, kmap) :: id in RepById(f, beacon, kmap) && RepById(f, beacon, kmap)[id] > 0
  {
    hide RepById, KeysById, BestDraw, FloorOf, DrawsOf, SeedFor;
    var rep, keys := RepById(f, beacon, kmap), KeysById(f, beacon, kmap);
    forall id | id in BestOf(d, f, beacon, kmap) ensures id in rep && rep[id] > 0 {
      BestIsEligible(d, rep, keys, SeedFor(d, beacon), id);
    }
  }

  lemma SameBestOf(
    d: Draw, f: seq<(Account, int)>, g: seq<(Account, int)>, beacon: bool, kf: map<Account, ByteString>, kg: map<Account, ByteString>
  )
    requires SameStanding(f, g) && SameFor(f, kf, kg)
    ensures BestOf(d, f, beacon, kf) == BestOf(d, g, beacon, kg)
  {
    var rf, rg, xf, xg := RepById(f, beacon, kf), RepById(g, beacon, kg), KeysById(f, beacon, kf), KeysById(g, beacon, kg);
    assert SameFor(g, kg, kf) by { assert forall a :: Standing(f, a) == Standing(g, a); }
    hide RepById, KeysById, Standing, BestDraw, FloorOf, DrawsOf, SeedFor;
    forall id ensures id in rf && rf[id] > 0 ==> id in rg && rg[id] == rf[id] && id in xf && id in xg && xf[id] == xg[id] {
      SpelledInBoth(f, g, beacon, kf, kg, id);
    }
    forall id ensures id in rg && rg[id] > 0 ==> id in rf && rf[id] == rg[id] {
      SpelledInBoth(g, f, beacon, kg, kf, id);
    }
    SameMapsSameBest(d, rf, xf, rg, xg, SeedFor(d, beacon));
  }

  lemma SameSeats(
    d: Draw, f: seq<(Account, int)>, g: seq<(Account, int)>, beacon: bool, kf: map<Account, ByteString>, kg: map<Account, ByteString>
  )
    requires SameStanding(f, g) && SameFor(f, kf, kg)
    ensures SeatedFrom(d, f, beacon, kf) == SeatedFrom(d, g, beacon, kg)
  {
    hide RepById, Standing, Members, BestOf;
    SameBestOf(d, f, g, beacon, kf, kg);
    BestStand(d, f, beacon, kf);
    BestStand(d, g, beacon, kg);
    var best := BestOf(d, f, beacon, kf);
    forall a ensures a in Members(f, best) <==> a in Members(g, best) {
      MembersStand(f, beacon, kf, best, a);
      MembersStand(g, beacon, kg, best, a);
      assert Standing(f, a) == Standing(g, a);
    }
    assert Members(f, best) == Members(g, best);
  }

  // ---------------------------------------------------------------- counting

  lemma {:induction false} CountsOfPositives(f: seq<(Account, int)>, kmap: map<Account, ByteString>)
    ensures CountReputable(f) == |Positives(f)| && CountCommitted(f, kmap) == CountCommitted(Positives(f), kmap)
    ensures forall e | e in Positives(f) :: e.1 > 0
  {
    if f != [] {
      var n := |f| - 1;
      CountsOfPositives(f[..n], kmap);
      if f[n].1 > 0 { CountAppend(Positives(f[..n]), f[n], kmap); } else { assert Positives(f) == Positives(f[..n]); }
    }
  }

  lemma CountAppend(s: seq<(Account, int)>, z: (Account, int), kmap: map<Account, ByteString>)
    ensures CountCommitted(s + [z], kmap) == CountCommitted(s, kmap) + if z.1 > 0 && z.0 in kmap then 1 else 0
  {
    assert (s + [z])[..|s|] == s;
  }

  lemma BagWithout<T>(s: seq<T>, i: nat)
    requires i < |s|
    ensures multiset(s[..i] + s[i + 1..]) == multiset(s) - multiset{s[i]}
  {
    assert s == s[..i] + [s[i]] + s[i + 1..];
  }

  lemma {:induction false} CountWithout(s: seq<(Account, int)>, i: nat, kmap: map<Account, ByteString>)
    requires i < |s|
    ensures CountCommitted(s, kmap) == CountCommitted(s[..i] + s[i + 1..], kmap) + if s[i].1 > 0 && s[i].0 in kmap then 1 else 0
    decreases |s|
  {
    var n := |s| - 1;
    var rest := s[..i] + s[i + 1..];
    if i < n {
      CountWithout(s[..n], i, kmap);
      assert s[..n][..i] + s[..n][i + 1..] == rest[..n - 1] && rest[n - 1] == s[n];
    } else {
      assert rest == s[..n];
    }
  }

  lemma {:induction false} CountOfBag(s: seq<(Account, int)>, t: seq<(Account, int)>, kmap: map<Account, ByteString>)
    requires multiset(s) == multiset(t)
    ensures CountCommitted(s, kmap) == CountCommitted(t, kmap) && |s| == |t|
    decreases |s|
  {
    assert |s| == |multiset(s)| == |multiset(t)| == |t|;
    if s != [] {
      var n := |s| - 1;
      assert s[n] in multiset(s);
      var i :| 0 <= i < |t| && t[i] == s[n];
      BagWithout(s, n);
      assert s[..n] + s[n + 1..] == s[..n];
      BagWithout(t, i);
      CountOfBag(s[..n], t[..i] + t[i + 1..], kmap);
      CountWithout(t, i, kmap);
    }
  }

  lemma {:induction false} CountSameKeys(s: seq<(Account, int)>, kf: map<Account, ByteString>, kg: map<Account, ByteString>)
    requires forall e | e in s :: e.0 in kf <==> e.0 in kg
    ensures CountCommitted(s, kf) == CountCommitted(s, kg)
  {
    if s != [] {
      CountSameKeys(s[..|s| - 1], kf, kg);
      assert s[|s| - 1] in s;
    }
  }

  lemma SameMode(
    f: seq<(Account, int)>, g: seq<(Account, int)>, cf: seq<(Account, ByteString)>, cg: seq<(Account, ByteString)>
  )
    requires multiset(Positives(f)) == multiset(Positives(g))
    requires forall e | e in Positives(f) :: e.0 in KeyMap(cf) <==> e.0 in KeyMap(cg)
    ensures UsesBeacon(f, cf) == UsesBeacon(g, cg)
  {
    CountsOfPositives(f, KeyMap(cf));
    CountsOfPositives(g, KeyMap(cg));
    CountSameKeys(Positives(f), KeyMap(cf), KeyMap(cg));
    CountOfBag(Positives(f), Positives(g), KeyMap(cg));
    if cf == [] { NoKeysFromNone(f); }
    if cg == [] { NoKeysFromNone(g); }
    hide KeyMap, CountCommitted, CountReputable, Positives;
  }

  // ---------------------------------------------------------------- non-interference

  /** What the election looks at: the positive entries of the bound accounts as a bag, the standing of each
      bound account, and the committed keys of those with a positive entry. */
  ghost predicate SameElectorate(x: Inputs, y: Inputs) {
    var f, g := Bound(x.reputation, AsSet(x.bound)), Bound(y.reputation, AsSet(y.bound));
    && multiset(Positives(f)) == multiset(Positives(g)) && SameStanding(f, g)
    && SameKeys(Positives(f), KeyMap(x.committed), KeyMap(y.committed))
  }

  ghost predicate SameKeys(f: seq<(Account, int)>, kf: map<Account, ByteString>, kg: map<Account, ByteString>) {
    forall e | e in f :: (e.0 in kf <==> e.0 in kg) && (e.0 in kf ==> kf[e.0] == kg[e.0])
  }

  /** The elected set is a function of those, for any lists, with accounts named any number of times. */
  lemma NonInterference(d: Draw, x: Inputs, y: Inputs, halted: bool)
    requires SameElectorate(x, y)
    ensures CommitteeOf(d, x, halted) == CommitteeOf(d, y, halted)
  {
    var f, g := Bound(x.reputation, AsSet(x.bound)), Bound(y.reputation, AsSet(y.bound));
    var kf, kg := KeyMap(x.committed), KeyMap(y.committed);
    SameMode(f, g, x.committed, y.committed);
    forall a | Standing(f, a) > 0 ensures (a in kf <==> a in kg) && (a in kf ==> kf[a] == kg[a]) { StandingIsNamed(f, a); }
    var beacon := UsesBeacon(f, x.committed);
    SameSeats(d, f, g, beacon, kf, kg);
    NobodyFromNone(d, f, beacon, kf);
    NobodyFromNone(d, g, beacon, kg);
    hide SeatedFrom, UsesBeacon, Bound, KeyMap, Positives, Standing;
  }

  lemma NobodyFromNone(d: Draw, f: seq<(Account, int)>, beacon: bool, kmap: map<Account, ByteString>)
    ensures f == [] ==> SeatedFrom(d, f, beacon, kmap) == {}
  {
    hide BestDraw;
  }

  /** Unbound accounts, wherever they stand, and whatever keys they have, change nothing. */
  lemma OutsidersChangeNothing(d: Draw, x: Inputs, y: Inputs, halted: bool)
    requires Bound(x.reputation, AsSet(x.bound)) == Bound(y.reputation, AsSet(y.bound))
    requires SameKeys(Bound(x.reputation, AsSet(x.bound)), KeyMap(x.committed), KeyMap(y.committed))
    ensures CommitteeOf(d, x, halted) == CommitteeOf(d, y, halted)
  {
    var f := Bound(x.reputation, AsSet(x.bound));
    forall e | e in Positives(f) ensures e in f { PositivesAreEntries(f, e); }
    NonInterference(d, x, y, halted);
  }

  /** What a list says of one account, in order. */
  function EntriesOf<T>(s: seq<(Account, T)>, a: Account): seq<T> {
    if s == [] then [] else EntriesOf(s[..|s| - 1], a) + if s[|s| - 1].0 == a then [s[|s| - 1].1] else []
  }

  lemma {:induction false} BoundEntries(s: seq<(Account, int)>, bound: set<Account>, a: Account)
    ensures EntriesOf(Bound(s, bound), a) == if a in bound then EntriesOf(s, a) else []
  {
    if s != [] {
      var n := |s| - 1;
      BoundEntries(s[..n], bound, a);
      if s[n].0 in bound {
        EntriesAppend(Bound(s[..n], bound), s[n], a);
      } else {
        assert Bound(s, bound) == Bound(s[..n], bound);
      }
    }
  }

  lemma EntriesAppend<T>(s: seq<(Account, T)>, z: (Account, T), a: Account)
    ensures EntriesOf(s + [z], a) == EntriesOf(s, a) + if z.0 == a then [z.1] else []
  {
    assert (s + [z])[..|s|] == s;
  }

  lemma {:induction false} StandingOfEntries(f: seq<(Account, int)>, a: Account)
    ensures var own := EntriesOf(f, a);
      Standing(f, a) == if own == [] then 0 else if own[|own| - 1] > 0 then own[|own| - 1] else 0
  {
    if f != [] { StandingOfEntries(f[..|f| - 1], a); }
  }

  lemma {:induction false} PositivesOfEntries(f: seq<(Account, int)>, e: (Account, int))
    ensures multiset(Positives(f))[e] == if e.1 > 0 then multiset(EntriesOf(f, e.0))[e.1] else 0
  {
    if f != [] { PositivesOfEntries(f[..|f| - 1], e); }
  }

  lemma {:induction false} KeyOfEntries(s: seq<(Account, ByteString)>, a: Account)
    ensures a in KeyMap(s) <==> EntriesOf(s, a) != []
    ensures a in KeyMap(s) ==> KeyMap(s)[a] == EntriesOf(s, a)[|EntriesOf(s, a)| - 1]
  {
    if s != [] { KeyOfEntries(s[..|s| - 1], a); }
  }

  lemma SameEntriesSameStanding(f: seq<(Account, int)>, g: seq<(Account, int)>)
    requires forall a :: EntriesOf(f, a) == EntriesOf(g, a)
    ensures multiset(Positives(f)) == multiset(Positives(g)) && SameStanding(f, g)
  {
    forall a ensures Standing(f, a) == Standing(g, a) {
      StandingOfEntries(f, a);
      StandingOfEntries(g, a);
    }
    forall e ensures multiset(Positives(f))[e] == multiset(Positives(g))[e] {
      PositivesOfEntries(f, e);
      PositivesOfEntries(g, e);
    }
    hide Positives, Standing, EntriesOf;
  }

  lemma SameEntriesSameKey(s: seq<(Account, ByteString)>, t: seq<(Account, ByteString)>, a: Account)
    requires EntriesOf(s, a) == EntriesOf(t, a)
    ensures a in KeyMap(s) <==> a in KeyMap(t)
    ensures a in KeyMap(s) ==> KeyMap(s)[a] == KeyMap(t)[a]
  {
    hide KeyMap, EntriesOf;
    KeyOfEntries(s, a);
    KeyOfEntries(t, a);
  }

  lemma SameEntriesSameKeys(f: seq<(Account, int)>, s: seq<(Account, ByteString)>, t: seq<(Account, ByteString)>)
    requires forall a :: EntriesOf(s, a) == EntriesOf(t, a)
    ensures SameKeys(f, KeyMap(s), KeyMap(t))
  {
    hide KeyMap, EntriesOf;
    forall e | e in f
      ensures e.0 in KeyMap(s) <==> e.0 in KeyMap(t)
      ensures e.0 in KeyMap(s) ==> KeyMap(s)[e.0] == KeyMap(t)[e.0]
    {
      SameEntriesSameKey(s, t, e.0);
    }
  }

  /** Entries of different accounts may pass each other: only the order in which one account is named counts. */
  lemma InterleavingIsIrrelevant(d: Draw, x: Inputs, y: Inputs, halted: bool)
    requires AsSet(x.bound) == AsSet(y.bound)
    requires forall a :: EntriesOf(x.reputation, a) == EntriesOf(y.reputation, a)
    requires forall a :: EntriesOf(x.committed, a) == EntriesOf(y.committed, a)
    ensures CommitteeOf(d, x, halted) == CommitteeOf(d, y, halted)
  {
    hide CommitteeOf, Positives, Standing, KeyMap, Bound, EntriesOf;
    var f, g := Bound(x.reputation, AsSet(x.bound)), Bound(y.reputation, AsSet(y.bound));
    forall a ensures EntriesOf(f, a) == EntriesOf(g, a) {
      BoundEntries(x.reputation, AsSet(x.bound), a);
      BoundEntries(y.reputation, AsSet(x.bound), a);
    }
    SameEntriesSameStanding(f, g);
    SameEntriesSameKeys(Positives(f), x.committed, y.committed);
    NonInterference(d, x, y, halted);
  }

  // ---------------------------------------------------------------- lists that name each account once

  /** `e` can take part: positive reputation and a bound node. */
  predicate Eligible(x: Inputs, e: (Account, int)) { e.1 > 0 && e in x.reputation && e.0 in x.bound }

  lemma {:induction false} OnceInBag(f: seq<(Account, int)>, e: (Account, int))
    requires DistinctAccounts(f)
    ensures multiset(Positives(f))[e] == if e in f && e.1 > 0 then 1 else 0
    ensures e in f && e.1 > 0 ==> Standing(f, e.0) == e.1
  {
    if f != [] {
      var t, z := f[..|f| - 1], f[|f| - 1];
      OnceInBag(t, e);
      assert f == t + [z];
      assert z !in t && (e in t ==> e.0 != z.0) by { assert forall i | 0 <= i < |t| :: f[i].0 != z.0; }
    }
  }

  /** Then the election looks at sets: eligible entries and their keys. Reordering any list, adding accounts that
      are unbound or not positive, and adding keys for such accounts all leave it as it was. */
  lemma NonInterferenceOfSets(d: Draw, x: Inputs, y: Inputs, halted: bool)
    requires DistinctAccounts(x.reputation) && DistinctAccounts(x.committed)
    requires DistinctAccounts(y.reputation) && DistinctAccounts(y.committed)
    requires forall e :: Eligible(x, e) <==> Eligible(y, e)
    requires forall e, k | Eligible(x, e) :: (e.0, k) in x.committed <==> (e.0, k) in y.committed
    ensures CommitteeOf(d, x, halted) == CommitteeOf(d, y, halted)
  {
    var f, g := Bound(x.reputation, AsSet(x.bound)), Bound(y.reputation, AsSet(y.bound));
    BoundKeepsDistinct(x.reputation, AsSet(x.bound));
    BoundKeepsDistinct(y.reputation, AsSet(y.bound));
    forall e ensures (e in f && e.1 > 0) <==> (e in g && e.1 > 0) { assert Eligible(x, e) <==> Eligible(y, e); }
    OnceSameStanding(f, g);
    forall e | e in Positives(f)
      ensures (e.0 in KeyMap(x.committed) <==> e.0 in KeyMap(y.committed))
      ensures e.0 in KeyMap(x.committed) ==> KeyMap(x.committed)[e.0] == KeyMap(y.committed)[e.0]
    {
      PositivesAreEntries(f, e);
      assert Eligible(x, e);
      OnceSameKey(x.committed, y.committed, e.0);
    }
    hide CommitteeOf, Positives, Standing, KeyMap, Bound;
    NonInterference(d, x, y, halted);
  }

  lemma OnceSameStanding(f: seq<(Account, int)>, g: seq<(Account, int)>)
    requires DistinctAccounts(f) && DistinctAccounts(g) && forall e :: (e in f && e.1 > 0) <==> (e in g && e.1 > 0)
    ensures multiset(Positives(f)) == multiset(Positives(g)) && SameStanding(f, g)
  {
    forall e ensures multiset(Positives(f))[e] == multiset(Positives(g))[e] {
      OnceInBag(f, e);
      OnceInBag(g, e);
    }
    forall a ensures Standing(f, a) == Standing(g, a) {
      if Standing(f, a) > 0 {
        StandingIsNamed(f, a);
        OnceInBag(g, (a, Standing(f, a) as int));
      }
      if Standing(g, a) > 0 {
        StandingIsNamed(g, a);
        OnceInBag(f, (a, Standing(g, a) as int));
      }
    }
  }

  lemma OnceSameKey(s: seq<(Account, ByteString)>, t: seq<(Account, ByteString)>, a: Account)
    requires DistinctAccounts(s) && DistinctAccounts(t) && forall k :: (a, k) in s <==> (a, k) in t
    ensures a in KeyMap(s) <==> a in KeyMap(t)
    ensures a in KeyMap(s) ==> KeyMap(s)[a] == KeyMap(t)[a]
  {
    if a in KeyMap(s) {
      KeyMapLooksUp(s, a, KeyMap(s)[a]);
      KeyMapLooksUp(t, a, KeyMap(s)[a]);
    }
    if a in KeyMap(t) {
      KeyMapLooksUp(s, a, KeyMap(t)[a]);
      KeyMapLooksUp(t, a, KeyMap(t)[a]);
    }
  }
}
