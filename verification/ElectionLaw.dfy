/** The election in one statement: which draw the committee is, and who wins a draw. */
module ElectionLaw {
  import opened Bytes
  import opened Numerals
  import opened Beacon
  import opened Sortition
  import opened Election
  import opened FinalityCommittee

  /** The key an account draws with: the one it committed, or in the fallback its identifier's. */
  predicate HasKey(beacon: bool, kmap: map<Account, ByteString>, a: Account) { beacon ==> a in kmap }

  function DrawKey(beacon: bool, kmap: map<Account, ByteString>, a: Account): ByteString
    requires HasKey(beacon, kmap, a)
  {
    if beacon then kmap[a] else Ascii("sk-") + Hex(a)
  }

  /** The seed of a draw, spelled out. */
  function SeedText(d: Draw, beacon: bool, i: nat): ByteString {
    d.prefix + Ascii("-") + (if beacon then Hex(d.beaconSeed) else Decimal(d.epoch)) +
    if i == 0 then [] else Ascii("-retry-") + Decimal(i)
  }

  lemma SeedsAre(d: Draw, beacon: bool, i: nat)
    ensures TrySeed(SeedFor(d, beacon), i) == SeedText(d, beacon, i)
  {
    hide Hex, Decimal;
    assert DASH == Ascii("-") && RETRY == Ascii("-retry-");
    assert SeedFor(d, beacon) == d.prefix + Ascii("-") + if beacon then Hex(d.beaconSeed) else Decimal(d.epoch);
  }

  /** The reputation all shares are taken of. */
  function Pot(f: seq<(Account, int)>, beacon: bool, kmap: map<Account, ByteString>): nat {
    Mass(PositivePart(RepById(f, beacon, kmap)))
  }

  function SeatsOf(d: Draw, f: seq<(Account, int)>, beacon: bool, kmap: map<Account, ByteString>, i: nat, a: Account): nat {
    var total := Pot(f, beacon, kmap);
    if Standing(f, a) == 0 || !HasKey(beacon, kmap, a) || total == 0 then 0
    else Seats(DrawOf(d.sha, DrawKey(beacon, kmap, a), SeedText(d, beacon, i)), Expected(d.tau, Standing(f, a), total), 64)
  }

  /** The accounts that win a seat in draw `i`. */
  function Winners(d: Draw, f: seq<(Account, int)>, beacon: bool, kmap: map<Account, ByteString>, i: nat): set<Account> {
    set e | e in f && SeatsOf(d, f, beacon, kmap, i, e.0) > 0 :: e.0
  }

  /** The accounts that could. */
  function Eligibles(f: seq<(Account, int)>, beacon: bool, kmap: map<Account, ByteString>): set<Account> {
    set e | e in f && Standing(f, e.0) > 0 && HasKey(beacon, kmap, e.0) :: e.0
  }

  lemma KeysAre(a: Account, beacon: bool, kmap: map<Account, ByteString>)
    ensures KeyFor(a, beacon, kmap) == if HasKey(beacon, kmap, a) then Some(DrawKey(beacon, kmap, a)) else None
  {
    assert SK_PREFIX == Ascii("sk-");
  }

  function Names(s: set<Account>): set<Name> { set a | a in s :: Hex(a) }

  lemma NamesSplit(s: set<Account>, x: Account)
    requires x in s
    ensures Names(s) == Names(s - {x}) + {Hex(x)} && Hex(x) !in Names(s - {x})
  {
    hide Hex;
    forall a | a in s - {x} ensures Hex(a) != Hex(x) { if Hex(a) == Hex(x) { HexInjective(a, x); } }
  }

  lemma {:induction false} HexCounts(s: set<Account>)
    ensures |Names(s)| == |s|
    decreases |s|
  {
    if s != {} {
      hide Names;
      var x :| x in s;
      NamesSplit(s, x);
      HexCounts(s - {x});
    }
  }

  /** An account with a key draws under its name, key and standing. */
  lemma NamedInDraw(d: Draw, f: seq<(Account, int)>, beacon: bool, kmap: map<Account, ByteString>, i: nat, a: Account)
    ensures var try := Try(d, RepById(f, beacon, kmap), KeysById(f, beacon, kmap), SeedFor(d, beacon), i);
      && (Hex(a) in try && Standing(f, a) > 0 && HasKey(beacon, kmap, a) <==> SeatsOf(d, f, beacon, kmap, i, a) > 0)
      && (SeatsOf(d, f, beacon, kmap, i, a) > 0 ==> try[Hex(a)] == SeatsOf(d, f, beacon, kmap, i, a))
  {
    hide RepById, KeysById, Mass, Standing, DrawOf, Expected, Seats, TrySeed, SeedFor, SeedText, Hex;
    SeedsAre(d, beacon, i);
    KeysAre(a, beacon, kmap);
    if HasKey(beacon, kmap, a) { SpelledByStanding(f, beacon, kmap, a); }
  }

  lemma DrawnIsOwned(d: Draw, f: seq<(Account, int)>, beacon: bool, kmap: map<Account, ByteString>, i: nat, id: Name) returns (a: Account)
    requires id in Try(d, RepById(f, beacon, kmap), KeysById(f, beacon, kmap), SeedFor(d, beacon), i)
    ensures Hex(a) == id && a in Winners(d, f, beacon, kmap, i)
  {
    hide RepById, KeysById, Mass, Standing, DrawOf, Expected, Seats, TrySeed, SeedFor, SeedText, Hex;
    a := OwnerStands(f, beacon, kmap, id);
    KeysAre(a, beacon, kmap);
    NamedInDraw(d, f, beacon, kmap, i, a);
    StandingIsNamed(f, a);
    hide SeatsOf;
    assert (a, Standing(f, a) as int) in f;
  }

  /** A draw hands its seats to exactly the winners. */
  lemma DrawIsWinners(d: Draw, f: seq<(Account, int)>, beacon: bool, kmap: map<Account, ByteString>, i: nat)
    ensures var try := Try(d, RepById(f, beacon, kmap), KeysById(f, beacon, kmap), SeedFor(d, beacon), i);
      && try.Keys == Names(Winners(d, f, beacon, kmap, i)) && |try| == |Winners(d, f, beacon, kmap, i)|
  {
    hide RepById, KeysById, SeedFor, Hex, Try, SeatsOf;
    var try, won := Try(d, RepById(f, beacon, kmap), KeysById(f, beacon, kmap), SeedFor(d, beacon), i), Winners(d, f, beacon, kmap, i);
    forall a | a in won ensures Hex(a) in try { NamedInDraw(d, f, beacon, kmap, i, a); }
    hide Winners;
    forall id | id in try ensures exists a :: a in won && Hex(a) == id { var a := DrawnIsOwned(d, f, beacon, kmap, i, id); }
    assert try.Keys == Names(won);
    HexCounts(won);
    assert |try| == |try.Keys|;
  }

  lemma FloorIs(f: seq<(Account, int)>, beacon: bool, kmap: map<Account, ByteString>)
    ensures var n := |Eligibles(f, beacon, kmap)|; FloorOf(RepById(f, beacon, kmap)) == if n < 4 then n else 4
  {
    hide RepById, Standing, Hex, KeyFor, DrawKey;
    var names, all := PositivePart(RepById(f, beacon, kmap)), Eligibles(f, beacon, kmap);
    forall a | a in all ensures Hex(a) in names { EligibleIsNamed(f, beacon, kmap, a); }
    forall id | id in names ensures id in Names(all) {
      var a := OwnerStands(f, beacon, kmap, id);
      KeysAre(a, beacon, kmap);
      StandingIsNamed(f, a);
      assert (a, Standing(f, a) as int) in f;
    }
    hide Eligibles, PositivePart;
    assert names.Keys == Names(all);
    HexCounts(all);
    assert |names| == |names.Keys|;
  }

  lemma EligibleIsNamed(f: seq<(Account, int)>, beacon: bool, kmap: map<Account, ByteString>, a: Account)
    requires a in Eligibles(f, beacon, kmap)
    ensures Hex(a) in PositivePart(RepById(f, beacon, kmap))
  {
    hide RepById, KeysById, Standing, Hex;
    KeysAre(a, beacon, kmap);
    SpelledByStanding(f, beacon, kmap, a);
  }

  /** Of `n` draws, number `k` is the first of the largest; all but the last fell short of the floor, and the last
      reached it or was the 33rd. */
  ghost predicate Kept(d: Draw, f: seq<(Account, int)>, beacon: bool, kmap: map<Account, ByteString>, floor: nat, n: nat, k: nat) {
    && k < n <= 33
    && (forall i: nat | i < n :: |Winners(d, f, beacon, kmap, i)| <= |Winners(d, f, beacon, kmap, k)|)
    && (forall i: nat | i < k :: |Winners(d, f, beacon, kmap, i)| < |Winners(d, f, beacon, kmap, k)|)
    && (forall i: nat | i < n - 1 :: |Winners(d, f, beacon, kmap, i)| < floor)
    && (|Winners(d, f, beacon, kmap, n - 1)| >= floor || n == 33)
  }

  lemma BestIsKept(d: Draw, f: seq<(Account, int)>, beacon: bool, kmap: map<Account, ByteString>) returns (n: nat, k: nat)
    ensures var m := |Eligibles(f, beacon, kmap)|; Kept(d, f, beacon, kmap, if m < 4 then m else 4, n, k)
    ensures BestOf(d, f, beacon, kmap).Keys == Names(Winners(d, f, beacon, kmap, k))
  {
    hide RepById, KeysById, SeedFor, Hex, Try, Winners, FloorOf, Eligibles, Redrawn;
    var rep, keys := RepById(f, beacon, kmap), KeysById(f, beacon, kmap);
    var draws := DrawsOf(d, rep, keys, SeedFor(d, beacon));
    FloorIs(f, beacon, kmap);
    var made;
    made, k := RedrawsNeverShrink(draws, FloorOf(rep));
    n := |made|;
    forall i: nat | i < n ensures |made[i]| == |Winners(d, f, beacon, kmap, i)| && made[i] == draws(i) { DrawIsWinners(d, f, beacon, kmap, i); }
    DrawIsWinners(d, f, beacon, kmap, k);
  }

  /** THE ELECTION. The committee is the winners of one draw: the first of the largest among the epoch's own draw and
      its redraws, which go on until a draw seats the smaller of four and all eligible accounts, 32 at most. A winner
      has a positive last entry, a bound node and a key, and draws at least one seat with that key, its own
      share of the whole and the seed of that draw. */
  lemma ElectionIs(d: Draw, x: Inputs) returns (n: nat, k: nat)
    ensures var f, kmap := Bound(x.reputation, AsSet(x.bound)), KeyMap(x.committed);
      var beacon := UsesBeacon(f, x.committed);
      var m := |Eligibles(f, beacon, kmap)|;
      && Kept(d, f, beacon, kmap, if m < 4 then m else 4, n, k)
      && CommitteeOf(d, x, false) == Winners(d, f, beacon, kmap, k)
  {
    hide BestOf, UsesBeacon, Bound, KeyMap, Kept, Eligibles;
    var f, kmap := Bound(x.reputation, AsSet(x.bound)), KeyMap(x.committed);
    var beacon := UsesBeacon(f, x.committed);
    n, k := BestIsKept(d, f, beacon, kmap);
    var won := Winners(d, f, beacon, kmap, k);
    forall a ensures a in Members(f, BestOf(d, f, beacon, kmap)) <==> a in won { WinnersSit(d, f, beacon, kmap, k, a); }
  }

  lemma WinnersSit(d: Draw, f: seq<(Account, int)>, beacon: bool, kmap: map<Account, ByteString>, k: nat, a: Account)
    requires BestOf(d, f, beacon, kmap).Keys == Names(Winners(d, f, beacon, kmap, k))
    ensures a in Members(f, BestOf(d, f, beacon, kmap)) <==> a in Winners(d, f, beacon, kmap, k)
  {
    hide BestOf, SeatsOf, Hex;
    var best, won := BestOf(d, f, beacon, kmap), Winners(d, f, beacon, kmap, k);
    if Hex(a) in best {
      var b :| b in won && Hex(b) == Hex(a);
      HexInjective(b, a);
    }
  }
}
