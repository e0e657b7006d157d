/** Positional numerals: big-endian values in any base, and the fixed-width little-endian integers
    of the wire formats. */
module Numerals {
  import opened Bytes

  function Pow(b: nat, e: nat): nat { if e == 0 then 1 else b * Pow(b, e - 1) }

  predicate Digits(b: nat, ds: seq<int>) { forall i | 0 <= i < |ds| :: 0 <= ds[i] < b }

  /** The number a big-endian digit string denotes. */
  function Value(b: nat, ds: seq<int>): (v: nat)
    requires b > 0 && Digits(b, ds)
  {
    if ds == [] then 0 else Value(b, ds[..|ds| - 1]) * b + ds[|ds| - 1]
  }

  lemma {:induction false} ValueInjective(b: nat, x: seq<int>, y: seq<int>)
    requires b > 0 && Digits(b, x) && Digits(b, y) && |x| == |y| && Value(b, x) == Value(b, y)
    ensures x == y
    decreases |x|
  {
    if x != [] {
      var n := |x| - 1;
      QuotientUnique(b, Value(b, x[..n]), x[n], Value(b, y[..n]), y[n]);
      ValueInjective(b, x[..n], y[..n]);
      assert x == x[..n] + [x[n]] && y == y[..n] + [y[n]];
    }
  }

  lemma QuotientUnique(b: nat, q: int, r: int, q': int, r': int)
    requires 0 <= r < b && 0 <= r' < b && q * b + r == q' * b + r'
    ensures q == q' && r == r'
  {
    assert (q - q') * b == r' - r;
    MultipleOutside(q - q', b);
  }

  lemma MultipleOutside(d: int, b: int)
    requires b >= 0
    ensures d >= 1 ==> d * b >= b
    ensures d <= -1 ==> d * b <= -b
  {}

  /** The order of byte strings of one length is that of the numbers they denote, first byte most significant. */
  lemma {:induction false} LexIsNumeric(x: ByteString, y: ByteString)
    requires |x| == |y|
    ensures LexLe(x, y) <==> Value(256, x) <= Value(256, y)
    decreases |x|
  {
    if x != [] {
      ValueHead(256, x);
      ValueHead(256, y);
      ValueBound(256, x[1..]);
      ValueBound(256, y[1..]);
      LexIsNumeric(x[1..], y[1..]);
      var p, r, r' := Pow(256, |x| - 1), Value(256, x[1..]), Value(256, y[1..]);
      if x[0] < y[0] { LeadingDigit(p, x[0], r, y[0], r'); }
      if y[0] < x[0] { LeadingDigit(p, y[0], r', x[0], r); }
    }
  }

  lemma LeadingDigit(p: nat, d: nat, r: nat, d': nat, r': nat)
    requires r < p && r' < p && d < d'
    ensures d * p + r < d' * p + r'
  {
    MulMonotone(p, d + 1, d');
  }

  lemma {:induction false} ValueBound(b: nat, ds: seq<int>)
    requires b > 0 && Digits(b, ds)
    ensures Value(b, ds) < Pow(b, |ds|)
    decreases |ds|
  {
    if ds != [] {
      var n := |ds| - 1;
      ValueBound(b, ds[..n]);
      OneMoreDigit(b, Value(b, ds[..n]), ds[n], Pow(b, n));
    }
  }

  lemma OneMoreDigit(b: nat, v: nat, d: nat, p: nat)
    requires v < p && d < b
    ensures v * b + d < b * p
  {
    MulMonotone(b, v + 1, p);
  }

  lemma {:induction false} ValueHead(b: nat, ds: seq<int>)
    requires b > 0 && Digits(b, ds) && ds != []
    ensures Value(b, ds) == ds[0] * Pow(b, |ds| - 1) + Value(b, ds[1..])
    decreases |ds|
  {
    var n := |ds| - 1;
    if n == 0 {
      assert ds[..0] == [] && ds[1..] == [] && Pow(b, 0) == 1;
    } else {
      ValueHead(b, ds[..n]);
      assert ds[..n][1..] == ds[1..][..n - 1];
      HeadShifts(b, ds[0], Pow(b, n - 1), Value(b, ds[..n][1..]));
    }
  }

  lemma HeadShifts(b: int, d: int, p: int, r: int)
    ensures (d * p + r) * b == d * (b * p) + r * b
  {
    MulAssociates(d, b, p);
  }

  function LittleEndian(n: nat, width: nat): (s: ByteString)
    ensures |s| == width
  {
    if width == 0 then [] else [n % 256] + LittleEndian(n / 256, width - 1)
  }

  function FromLittleEndian(s: ByteString): nat {
    if s == [] then 0 else s[0] + 256 * FromLittleEndian(s[1..])
  }

  lemma {:induction false} LittleEndianRoundTrip(n: nat, width: nat)
    requires n < Pow(256, width)
    ensures FromLittleEndian(LittleEndian(n, width)) == n
  {
    if width > 0 {
      assert n / 256 < Pow(256, width - 1);
      LittleEndianRoundTrip(n / 256, width - 1);
    }
  }

  lemma {:induction false} FromLittleEndianRoundTrip(s: ByteString)
    ensures FromLittleEndian(s) < Pow(256, |s|)
    ensures LittleEndian(FromLittleEndian(s), |s|) == s
  {
    if s != [] {
      FromLittleEndianRoundTrip(s[1..]);
      assert FromLittleEndian(s) / 256 == FromLittleEndian(s[1..]);
      assert s == [s[0]] + s[1..];
    }
  }

  // ---------------------------------------------------------------- truncating division

  lemma MulMonotone(a: nat, x: nat, y: nat)
    requires x <= y
    ensures a * x <= a * y && x * a <= y * a
  {}

  lemma MulStrict(a: nat, x: nat, y: nat)
    requires a > 0 && x < y
    ensures a * x < a * y && x * a < y * a
  {}

  /** Product of naturals; its type says it is not negative. */
  function Times(a: nat, b: nat): nat { MulMonotone(a, 0, b); a * b }

  lemma MulCommutes(a: int, b: int)
    ensures a * b == b * a
  {}

  lemma MulAssociates(a: int, b: int, c: int)
    ensures a * (b * c) == a * b * c
  {}

  lemma FactorOrder(x: nat, y: nat, d: nat)
    requires x * d < y * d
    ensures x < y
  {
    if x >= y { MulMonotone(d, y, x); }
  }

  /** Quotient of non-negative integers, rounded down, as the number of times `d` can be taken from `x`. */
  function Quot(x: nat, d: nat): (q: nat)
    requires d > 0
    ensures q * d <= x < q * d + d
    decreases x
  {
    if x < d then 0
    else
      var q := Quot(x - d, d);
      assert (q + 1) * d == q * d + d;
      q + 1
  }

  lemma QuotUnique(x: nat, d: nat, q: nat)
    requires d > 0 && q * d <= x < q * d + d
    ensures Quot(x, d) == q
  {
    var p := Quot(x, d);
    assert (q + 1) * d == q * d + d && (p + 1) * d == p * d + d;
    FactorOrder(p, q + 1, d);
    FactorOrder(q, p + 1, d);
  }

  lemma QuotBelow(x: nat, y: nat, d: nat)
    requires d > 0 && x < y * d
    ensures Quot(x, d) < y
  {
    FactorOrder(Quot(x, d), y, d);
  }

  lemma QuotMonotone(x: nat, y: nat, d: nat)
    requires d > 0 && x <= y
    ensures Quot(x, d) <= Quot(y, d)
  {
    assert (Quot(y, d) + 1) * d == Quot(y, d) * d + d;
    FactorOrder(Quot(x, d), Quot(y, d) + 1, d);
  }

  lemma QuotExact(q: nat, d: nat)
    requires d > 0
    ensures Quot(q * d, d) == q
  {
    QuotUnique(q * d, d, q);
  }

  lemma QuotAtLeast(x: nat, d: nat, q: nat)
    requires d > 0 && q * d <= x
    ensures Quot(x, d) >= q
  {
    if Quot(x, d) < q { MulMonotone(d, Quot(x, d) + 1, q); }
  }
}
