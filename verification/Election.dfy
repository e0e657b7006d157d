/** Reputation-weighted committee election over the fixed-point sortition: who is eligible, how many
    expected seats reputation buys, and the beacon, fallback and liveness-floor rules of the finality
    committee. */
module Election {
  import opened Bytes
  import opened Numerals
  import opened Sortition
  import opened Beacon

  const SEAT_CAP := 64
  const MAX_RETRIES := 32
  const TWO_64 := 0x1_0000_0000_0000_0000

  // ---------------------------------------------------------------- the draw

  /** What is hashed for a draw: the key, a bar, the seed. */
  function DrawInput(key: ByteString, seed: ByteString): ByteString { key + [124] + seed }

  /** The first eight bytes of the digest as a number, scaled to a fraction. */
  function DrawOf(sha: Hasher, key: ByteString, seed: ByteString): nat {
    Quot(Value(256, sha(DrawInput(key, seed))[..8]) * FP, TWO_64)
  }

  method VrfValue(sha: Hasher, key: ByteString, seed: ByteString) returns (value: nat)
    ensures value == DrawOf(sha, key, seed)
  {
    var d := sha(key + [124] + seed);
    var top := 0;
    for i := 0 to 8
      invariant top == Value(256, d[..i])
    {
      assert d[..i + 1][..i] == d[..i];
      top := top * 256 + d[i];
    }
    value := Quot(top * FP, TWO_64);
  }

  /** Every draw is a proper fraction. */
  lemma DrawInRange(sha: Hasher, key: ByteString, seed: ByteString)
    ensures DrawOf(sha, key, seed) < FP
  {
    var first := sha(DrawInput(key, seed))[..8];
    ValueBound(256, first);
    PowersOf256();
    MulStrict(FP, Value(256, first), TWO_64);
    MulCommutes(FP, TWO_64);
    QuotBelow(Value(256, first) * FP, FP, TWO_64);
  }

  /** A draw is below `v` parts in `FP` exactly if the first eight bytes of the digest, as a fraction, are. */
  lemma DrawBelow(sha: Hasher, key: ByteString, seed: ByteString, v: nat)
    ensures DrawOf(sha, key, seed) < v <==> Value(256, sha(key + Ascii("|") + seed)[..8]) * FP < v * TWO_64
  {
    assert Ascii("|") == [124];
    var x := Value(256, sha(DrawInput(key, seed))[..8]) * FP;
    if x < v * TWO_64 { QuotBelow(x, v, TWO_64); } else { QuotAtLeast(x, TWO_64, v); }
  }

  // ---------------------------------------------------------------- draws that differ

  function Ones(n: nat): (s: ByteString)
    ensures |s| == n
  {
    if n == 0 then [] else Ones(n - 1) + [255]
  }

  /** A hash function that tells one input from all others. */
  function Marking(input: ByteString): Hasher { x => if x == input then Ones(8) + Zeros(24) else Zeros(32) }

  lemma {:induction false} OnesValue(n: nat)
    ensures Value(256, Ones(n)) == Pow(256, n) - 1
  {
    if n > 0 { OnesValue(n - 1); }
  }

  lemma PowersOf256()
    ensures Pow(256, 8) == TWO_64
  {
    assert Pow(256, 4) == 0x1_0000_0000;
  }

  lemma LargestDraw(sha: Hasher, key: ByteString, seed: ByteString)
    requires sha(DrawInput(key, seed)) == Ones(8) + Zeros(24)
    ensures DrawOf(sha, key, seed) == FP - 1
  {
    assert sha(DrawInput(key, seed))[..8] == Ones(8);
    OnesValue(8);
    PowersOf256();
    QuotUnique((TWO_64 - 1) * FP, TWO_64, FP - 1);
  }

  lemma {:induction false} ZeroValue(n: nat)
    ensures Value(256, Zeros(n)) == 0
  {
    if n > 0 { ZeroValue(n - 1); }
  }

  lemma SmallestDraw(sha: Hasher, key: ByteString, seed: ByteString)
    requires sha(DrawInput(key, seed)) == Zeros(32)
    ensures DrawOf(sha, key, seed) == 0
  {
    assert sha(DrawInput(key, seed))[..8] == Zeros(8);
    ZeroValue(8);
    QuotUnique(0, TWO_64, 0);
  }

  lemma MarkInside(a: ByteString, b: ByteString, x: ByteString, y: ByteString, mark: Byte)
    requires a + x == b + y && |a| < |b| && (x != [] ==> x[0] == mark)
    ensures mark in b
  {
    assert (a + x)[|a|] == mark && (b + y)[|a|] == b[|a|];
  }

  /** A string splits in one way at the first mark. */
  lemma UniqueSplit(a: ByteString, b: ByteString, x: ByteString, y: ByteString, mark: Byte)
    requires a + x == b + y && mark !in a && mark !in b
    requires (x != [] ==> x[0] == mark) && (y != [] ==> y[0] == mark)
    ensures a == b && x == y
  {
    var s := a + x;
    if |a| < |b| { MarkInside(a, b, x, y, mark); }
    if |b| < |a| { MarkInside(b, a, y, x, mark); }
    assert a == s[..|a|] && b == s[..|b|] && x == s[|a|..] && y == s[|b|..];
  }

  /** Keys of one length, or keys without a bar, and seeds never share a hash input. */
  lemma DrawInputsSeparate(key: ByteString, seed: ByteString, key': ByteString, seed': ByteString)
    requires |key| == |key'| || (124 !in key && 124 !in key')
    ensures DrawInput(key, seed) == DrawInput(key', seed') <==> key == key' && seed == seed'
  {
    var s := DrawInput(key, seed);
    if s == DrawInput(key', seed') {
      assert key + ([124] + seed) == s && key' + ([124] + seed') == s;
      if 124 !in key && 124 !in key' { UniqueSplit(key, key', [124] + seed, [124] + seed', 124); }
      assert key == s[..|key|] && key' == s[..|key'|] && seed == s[|key| + 1..] && seed' == s[|key'| + 1..];
    }
  }

  /** Whenever key or seed differ, some hash function gives one the largest draw and the other the smallest. */
  lemma DrawsSeparate(key: ByteString, seed: ByteString, key': ByteString, seed': ByteString)
    requires |key| == |key'| || (124 !in key && 124 !in key')
    requires key != key' || seed != seed'
    ensures var sha := Marking(DrawInput(key, seed));
      DrawOf(sha, key, seed) == FP - 1 && DrawOf(sha, key', seed') == 0
  {
    DrawInputsSeparate(key, seed, key', seed');
    hide DrawOf, DrawInput;
    LargestDraw(Marking(DrawInput(key, seed)), key, seed);
    SmallestDraw(Marking(DrawInput(key, seed)), key', seed');
  }

  // ---------------------------------------------------------------- expected seats

  function ShareOf(r: nat, total: nat): nat requires total > 0 { Quot(r * FP, total) }

  /** Expected seats in fixed point: `tau * (r / total)`, both products truncated. */
  function Expected(tau: nat, r: nat, total: nat): nat requires total > 0 {
    Quot(Times(Times(tau, FP), ShareOf(r, total)), FP)
  }

  lemma ExpectedIsShare(tau: nat, r: nat, total: nat)
    requires total > 0
    ensures Expected(tau, r, total) == tau * ShareOf(r, total)
  {
    var s := ShareOf(r, total);
    MulAssociates(tau, s, FP);
    MulAssociates(tau, FP, s);
    MulCommutes(FP, s);
    QuotExact(Times(tau, s), FP);
  }

  /** Reputation expects no seat exactly below one part in `FP` of the total, or when none are on offer. */
  lemma DustHasNoSeats(tau: nat, r: nat, total: nat, value: int)
    requires total > 0
    ensures Expected(tau, r, total) == 0 <==> tau == 0 || r * FP < total
    ensures tau == 0 || r * FP < total ==> Seats(value, Expected(tau, r, total), SEAT_CAP) == 0
  {
    ExpectedIsShare(tau, r, total);
    var s := ShareOf(r, total);
    if s > 0 {
      MulMonotone(total, 1, s);
      if tau > 0 { MulStrict(tau, 0, s); }
    } else {
      assert s * total == 0;
    }
  }

  function Mass(m: map<Name, nat>): nat
    decreases |m|
  {
    if m == map[] then 0
    else
      var x := Least(m.Keys);
      assert x in m;
      SmallerWithout(m, x);
      m[x] + Mass(m - {x})
  }

  lemma SmallerWithout<V>(m: map<Name, V>, x: Name)
    requires x in m
    ensures |m - {x}| == |m| - 1 && (m - {x}).Keys == m.Keys - {x}
  {
    assert (m - {x}).Keys == m.Keys - {x};
    assert |m| == |m.Keys| && |m - {x}| == |(m - {x}).Keys|;
  }

  /** A mass can be taken apart at any account. */
  lemma {:induction false} MassWithout(m: map<Name, nat>, y: Name)
    requires y in m
    ensures Mass(m) == m[y] + Mass(m - {y})
    decreases |m|
  {
    var x := Least(m.Keys);
    SmallerWithout(m, x);
    if x != y {
      MassWithout(m - {x}, y);
      SmallerWithout(m, y);
      assert x in m - {y};
      MassWithout(m - {y}, x);
      assert m - {x} - {y} == m - {y} - {x};
    }
  }

  function Shares(m: map<Name, nat>, total: nat): map<Name, nat> requires total > 0 {
    map n | n in m :: ShareOf(m[n], total)
  }

  lemma ShareStep(r: nat, rest: nat, q: nat, s: nat, n: nat, total: nat)
    requires q * total <= r * FP < q * total + total
    requires Rounded(rest, s, n, total)
    ensures Rounded(r + rest, q + s, n + 1, total)
  {
    Distribute(total, q, s);
    Distribute(total, q + 1, s + n);
  }

  lemma Distribute(a: nat, x: nat, y: nat)
    ensures a * (x + y) == a * x + a * y
  {}

  lemma SharesWithout(m: map<Name, nat>, total: nat, x: Name)
    requires total > 0 && x in m
    ensures Mass(Shares(m, total)) == ShareOf(m[x], total) + Mass(Shares(m - {x}, total))
  {
    assert Shares(m - {x}, total) == Shares(m, total) - {x};
    MassWithout(Shares(m, total), x);
  }

  /** `s` shares of a total stand for the mass up to less than one unit of rounding per account. */
  predicate Rounded(mass: nat, s: nat, n: nat, total: nat) {
    s * total <= mass * FP && mass * FP + n <= (s + n) * total
  }

  lemma OneMoreShare(m: map<Name, nat>, total: nat, x: Name)
    requires total > 0 && x in m
    requires Rounded(Mass(m - {x}), Mass(Shares(m - {x}, total)), |m - {x}|, total)
    ensures Rounded(Mass(m), Mass(Shares(m, total)), |m|, total)
  {
    hide Mass, Shares, Rounded;
    SmallerWithout(m, x);
    SharesWithout(m, total, x);
    MassWithout(m, x);
    ShareStep(m[x], Mass(m - {x}), ShareOf(m[x], total), Mass(Shares(m - {x}, total)), |m| - 1, total);
  }

  lemma {:induction false} SharesMass(m: map<Name, nat>, total: nat)
    requires total > 0
    ensures Rounded(Mass(m), Mass(Shares(m, total)), |m|, total)
    decreases |m|
  {
    if m == map[] {
      assert Shares(m, total) == map[];
      NothingRounds(total);
    } else {
      hide Rounded, Shares;
      var x := Least(m.Keys);
      SmallerWithout(m, x);
      SharesMass(m - {x}, total);
      OneMoreShare(m, total, x);
    }
  }

  lemma NothingRounds(total: nat)
    ensures Rounded(0, 0, 0, total)
  {}

  lemma {:induction false} ScaledMass(tau: nat, m: map<Name, nat>, total: nat)
    requires total > 0
    ensures Mass(map n | n in m :: Expected(tau, m[n], total)) == tau * Mass(Shares(m, total))
    decreases |m|
  {
    var e := map n | n in m :: Expected(tau, m[n], total);
    if m != map[] {
      var x := Least(m.Keys);
      SmallerWithout(m, x);
      ScaledMass(tau, m - {x}, total);
      ScaledStep(tau, m, total, x);
    } else {
      assert e == map[] && Shares(m, total) == map[];
    }
  }

  lemma ScaledStep(tau: nat, m: map<Name, nat>, total: nat, x: Name)
    requires total > 0 && x in m
    requires Mass(map n | n in m - {x} :: Expected(tau, (m - {x})[n], total)) == tau * Mass(Shares(m - {x}, total))
    ensures Mass(map n | n in m :: Expected(tau, m[n], total)) == tau * Mass(Shares(m, total))
  {
    var e := map n | n in m :: Expected(tau, m[n], total);
    ExpectedIsShare(tau, m[x], total);
    assert e - {x} == map n | n in m - {x} :: Expected(tau, (m - {x})[n], total);
    MassWithout(e, x);
    SharesWithout(m, total, x);
    hide Mass, Shares, ShareOf, Expected;
    Distribute(tau, ShareOf(m[x], total), Mass(Shares(m - {x}, total)));
  }

  /** CONSERVATION. Over an election the expected seats add up to at most `tau`, and fall short of it
      by less than `tau` parts in `FP` per account. */
  lemma ExpectedSeatsConserved(tau: nat, m: map<Name, nat>)
    requires Mass(m) > 0
    ensures var expected := Mass(map n | n in m :: Expected(tau, m[n], Mass(m)));
      && expected <= tau * FP
      && (tau > 0 ==> expected > tau * FP - tau * |m|)
  {
    var total := Mass(m);
    SharesMass(m, total);
    ScaledMass(tau, m, total);
    var s := Mass(Shares(m, total));
    MulCommutes(total, FP);
    if s > FP { MulStrict(total, FP, s); }
    assert total * FP < (s + |m|) * total by { assert |m| > 0; }
    FactorOrder(FP, s + |m|, total);
    MulMonotone(tau, s, FP);
    Distribute(tau, s, |m|);
    if tau > 0 { MulStrict(tau, FP, s + |m|); }
  }

  lemma QuotSuperadditive(x: nat, y: nat, d: nat)
    requires d > 0
    ensures Quot(x, d) + Quot(y, d) <= Quot(x + y, d)
  {
    var p, q := Quot(x, d), Quot(y, d);
    hide Quot;
    Distribute(d, p, q);
    QuotAtLeast(x + y, d, p + q);
  }

  function ExpectedSum(tau: nat, parts: seq<nat>, total: nat): nat requires total > 0 {
    if parts == [] then 0 else ExpectedSum(tau, parts[..|parts| - 1], total) + Expected(tau, parts[|parts| - 1], total)
  }

  /** Splitting one account's reputation over any number of accounts never raises its expected seats. */
  lemma {:induction false} SplittingNeverPays(tau: nat, parts: seq<nat>, total: nat)
    requires total > 0
    ensures ExpectedSum(tau, parts, total) <= Expected(tau, Sum(parts), total)
    decreases |parts|
  {
    if parts != [] {
      var n := |parts| - 1;
      var a, b := Sum(parts[..n]), parts[n];
      SplittingNeverPays(tau, parts[..n], total);
      ExpectedIsShare(tau, a, total);
      ExpectedIsShare(tau, b, total);
      ExpectedIsShare(tau, a + b, total);
      QuotSuperadditive(a * FP, b * FP, total);
      assert (a + b) * FP == a * FP + b * FP;
      Distribute(tau, ShareOf(a, total), ShareOf(b, total));
      MulMonotone(tau, ShareOf(a, total) + ShareOf(b, total), ShareOf(a + b, total));
    }
  }
}
