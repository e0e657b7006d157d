/** What an election depends on for its chance: the beacon in beacon mode, the epoch in the fallback, and
    byte strings that never coincide. */
module ElectionSeeds {
  import opened Bytes
  import opened Numerals
  import opened Beacon
  import opened Sortition
  import opened Election
  import opened FinalityCommittee

  ghost predicate BeaconMode(x: Inputs) { UsesBeacon(Bound(x.reputation, AsSet(x.bound)), x.committed) }

  /** With the beacon populated the public epoch number plays no part; in the fallback the beacon plays none. */
  lemma ModeFixesSeed(d: Draw, x: Inputs, halted: bool, epoch: nat, beaconSeed: Digest)
    ensures BeaconMode(x) ==> CommitteeOf(d.(epoch := epoch), x, halted) == CommitteeOf(d, x, halted)
    ensures !BeaconMode(x) ==> CommitteeOf(d.(beaconSeed := beaconSeed), x, halted) == CommitteeOf(d, x, halted)
  {
    var f, kmap := Bound(x.reputation, AsSet(x.bound)), KeyMap(x.committed);
    if BeaconMode(x) {
      SameSeedSameSeats(d, d.(epoch := epoch), f, true, kmap);
    } else {
      SameSeedSameSeats(d, d.(beaconSeed := beaconSeed), f, false, kmap);
    }
    hide UsesBeacon, SeatedFrom, KeyMap, Bound;
  }

  lemma SameSeedSameSeats(d: Draw, d': Draw, f: seq<(Account, int)>, beacon: bool, kmap: map<Account, ByteString>)
    requires d.sha == d'.sha && d.tau == d'.tau && SeedFor(d, beacon) == SeedFor(d', beacon)
    ensures SeatedFrom(d, f, beacon, kmap) == SeatedFrom(d', f, beacon, kmap)
  {
    var rep, keys, seed := RepById(f, beacon, kmap), KeysById(f, beacon, kmap), SeedFor(d, beacon);
    SameDraws(d, d', rep, keys, seed, FloorOf(rep), Try(d, rep, keys, seed, 0), 0);
    hide Redrawn, Try, RepById, KeysById;
  }

  lemma {:induction false} SameDraws(
    d: Draw, d': Draw, rep: map<Name, int>, keys: map<Name, ByteString>, seed: ByteString, floor: nat, best: map<Name, nat>, retry: nat
  )
    requires d.sha == d'.sha && d.tau == d'.tau
    ensures Redrawn(DrawsOf(d, rep, keys, seed), floor, best, retry) == Redrawn(DrawsOf(d', rep, keys, seed), floor, best, retry)
    decreases MAX_RETRIES - retry
  {
    hide Drawn, TrySeed;
    if |best| < floor && retry < MAX_RETRIES {
      SameDraws(d, d', rep, keys, seed, floor, Larger(best, DrawsOf(d, rep, keys, seed)(retry + 1)), retry + 1);
    }
  }

  // ---------------------------------------------------------------- decimal numerals

  function DecimalDigits(ds: ByteString): seq<int> { seq<int>(|ds|, i requires 0 <= i < |ds| => ds[i] as int - 48) }

  /** A decimal numeral is made of digits only, denotes its number, and is no longer than it must be. */
  lemma {:induction false} DecimalDenotes(n: nat)
    ensures Digits(10, DecimalDigits(Decimal(n))) && Value(10, DecimalDigits(Decimal(n))) == n
    ensures |Decimal(n)| >= 1 && (|Decimal(n)| > 1 ==> Decimal(n)[0] != 48)
    ensures n > 0 ==> Pow(10, |Decimal(n)| - 1) <= n
  {
    var ds := DecimalDigits(Decimal(n));
    if n >= 10 {
      DecimalDenotes(n / 10);
      assert ds[..|ds| - 1] == DecimalDigits(Decimal(n / 10)) && ds[|ds| - 1] == n % 10;
    } else {
      assert ds == [n] && ds[..0] == [];
    }
  }

  lemma DecimalInjective(m: nat, n: nat)
    requires Decimal(m) == Decimal(n)
    ensures m == n
  {
    DecimalDenotes(m);
    DecimalDenotes(n);
  }

  lemma {:induction false} PowGrows(b: nat, m: nat, n: nat)
    requires b > 0 && m <= n
    ensures Pow(b, m) <= Pow(b, n)
    decreases n
  {
    if m < n {
      PowGrows(b, m, n - 1);
      MulMonotone(Pow(b, n - 1), 1, b);
    }
  }

  /** A 32-bit number has at most ten digits. */
  lemma ShortDecimal(n: nat)
    requires n < 0x1_0000_0000
    ensures |Decimal(n)| <= 10
  {
    DecimalDenotes(n);
    assert Pow(10, 5) == 100_000;
    assert Pow(10, 10) == 10_000_000_000;
    if |Decimal(n)| > 10 { PowGrows(10, 10, |Decimal(n)| - 1); }
  }

  lemma {:induction false} HexHasNoDash(d: ByteString)
    ensures 45 !in Hex(d) && 124 !in Hex(d)
  {
    if d != [] { HexHasNoDash(d[..|d| - 1]); }
  }

  lemma {:induction false} DecimalHasNoDash(n: nat)
    ensures 45 !in Decimal(n)
  {
    if n >= 10 { DecimalHasNoDash(n / 10); }
  }

  // ---------------------------------------------------------------- seeds that differ

  /** What follows the prefix: beacon or epoch. */
  function Body(d: Draw, beacon: bool): ByteString { if beacon then Hex(d.beaconSeed) else Decimal(d.epoch) }

  /** What a redraw adds. */
  function Salt(i: nat): ByteString { if i == 0 then [] else RETRY + Decimal(i) }

  lemma BodyHasNoDash(d: Draw, beacon: bool)
    ensures 45 !in Body(d, beacon)
  {
    HexHasNoDash(d.beaconSeed);
    DecimalHasNoDash(d.epoch);
  }

  lemma SeedParts(d: Draw, beacon: bool, i: nat)
    ensures TrySeed(SeedFor(d, beacon), i)[|d.prefix| + 1..] == Body(d, beacon) + Salt(i)
  {
    hide Hex, Decimal;
    assert SeedFor(d, beacon) == d.prefix + DASH + Body(d, beacon);
    assert TrySeed(SeedFor(d, beacon), i) == SeedFor(d, beacon) + Salt(i);
    AfterPrefix(d.prefix, Body(d, beacon), Salt(i));
  }

  lemma AfterPrefix(prefix: ByteString, body: ByteString, salt: ByteString)
    ensures (prefix + DASH + body + salt)[|prefix| + 1..] == body + salt
  {}

  lemma SaltInjective(i: nat, j: nat)
    requires Salt(i) == Salt(j)
    ensures i == j
  {
    if i > 0 && j > 0 {
      assert Decimal(i) == Salt(i)[|RETRY|..] && Decimal(j) == Salt(j)[|RETRY|..];
      DecimalInjective(i, j);
    }
  }

  /** The mode, the beacon in beacon mode or else the epoch, and the number of the redraw. */
  ghost predicate SameChance(d: Draw, beacon: bool, i: nat, d': Draw, beacon': bool, i': nat) {
    beacon == beacon' && i == i' && (if beacon then d.beaconSeed == d'.beaconSeed else d.epoch == d'.epoch)
  }

  /** Under one prefix a seed determines all of that: no two beacons, no two 32-bit epochs, no beacon and epoch,
      and no two redraws of one election share it. */
  lemma SeedsSeparate(d: Draw, beacon: bool, i: nat, d': Draw, beacon': bool, i': nat)
    requires d.prefix == d'.prefix && d.epoch < 0x1_0000_0000 && d'.epoch < 0x1_0000_0000
    ensures TrySeed(SeedFor(d, beacon), i) == TrySeed(SeedFor(d', beacon'), i') <==> SameChance(d, beacon, i, d', beacon', i')
  {
    if TrySeed(SeedFor(d, beacon), i) == TrySeed(SeedFor(d', beacon'), i') {
      SeedParts(d, beacon, i);
      SeedParts(d', beacon', i');
      BodyHasNoDash(d, beacon);
      BodyHasNoDash(d', beacon');
      UniqueSplit(Body(d, beacon), Body(d', beacon'), Salt(i), Salt(i'), 45);
      SaltInjective(i, i');
      SameBody(d, beacon, d', beacon');
    }
  }

  lemma SameBody(d: Draw, beacon: bool, d': Draw, beacon': bool)
    requires Body(d, beacon) == Body(d', beacon') && d.epoch < 0x1_0000_0000 && d'.epoch < 0x1_0000_0000
    ensures beacon == beacon' && (if beacon then d.beaconSeed == d'.beaconSeed else d.epoch == d'.epoch)
  {
    ShortDecimal(d.epoch);
    ShortDecimal(d'.epoch);
    assert |Hex(d.beaconSeed)| == 64 && |Hex(d'.beaconSeed)| == 64;
    hide Hex, Decimal;
    if beacon && beacon' { HexInjective(d.beaconSeed, d'.beaconSeed); }
    if !beacon && !beacon' { DecimalInjective(d.epoch, d'.epoch); }
  }

  /** Two accounts of the fallback never share a key, and none of its keys has a bar in it. */
  lemma FallbackKeysSeparate(a: Account, b: Account, kmap: map<Account, ByteString>)
    ensures KeyFor(a, false, kmap) == KeyFor(b, false, kmap) <==> a == b
    ensures 124 !in KeyFor(a, false, kmap).value
  {
    HexHasNoDash(a);
    var x, y := SK_PREFIX + Hex(a), SK_PREFIX + Hex(b);
    if x == y {
      assert Hex(a) == x[3..] && Hex(b) == y[3..];
      HexInjective(a, b);
    }
  }

  /** THE DRAWS SEPARATE. Two draws under one prefix share their hash input exactly if they have the same chance and
      the same key; otherwise some hash function gives one the largest draw and the other the smallest. So neither
      the beacon, nor the epoch, nor the redraw, nor the key is without effect. */
  lemma ChanceSeparates(d: Draw, beacon: bool, i: nat, key: ByteString, d': Draw, beacon': bool, i': nat, key': ByteString)
    requires d.prefix == d'.prefix && d.epoch < 0x1_0000_0000 && d'.epoch < 0x1_0000_0000
    requires |key| == |key'| || (124 !in key && 124 !in key')
    ensures var seed, seed' := TrySeed(SeedFor(d, beacon), i), TrySeed(SeedFor(d', beacon'), i');
      var sha := Marking(DrawInput(key, seed));
      if SameChance(d, beacon, i, d', beacon', i') && key == key'
      then DrawInput(key, seed) == DrawInput(key', seed')
      else DrawOf(sha, key, seed) == FP - 1 && DrawOf(sha, key', seed') == 0
  {
    hide TrySeed, SeedFor, DrawOf, DrawInput, Marking;
    SeedsSeparate(d, beacon, i, d', beacon', i');
    var seed, seed' := TrySeed(SeedFor(d, beacon), i), TrySeed(SeedFor(d', beacon'), i');
    if key != key' || seed != seed' { DrawsSeparate(key, seed, key', seed'); }
  }
}
