/** Content addresses: base32 in lower case without padding (section 6 of RFC 4648; padding omitted as
    in its section 3.2), and the CIDv1 string of a digest. */
module ContentId {
  import opened Bytes
  import opened Numerals

  type Hasher = ByteString -> Digest

  const WORD := 0x1_0000_0000

  // ---------------------------------------------------------------- small powers of two

  function Pow2(b: nat): (p: nat)
    ensures p > 0
  {
    if b == 0 then 1 else 2 * Pow2(b - 1)
  }

  /** The last `bits` bits of the stream, all that matters of the shift register. */
  function Low(buffer: nat, bits: nat): nat { buffer % Pow2(bits) }

  /** The bits above them. */
  function High(buffer: nat, bits: nat): nat {
    QuotientIsNat(buffer, Pow2(bits));
    buffer / Pow2(bits)
  }

  lemma QuotientIsNat(x: nat, d: nat)
    requires d > 0
    ensures x / d >= 0
  {}

  // ---------------------------------------------------------------- the lossless accumulator

  /** Symbols produced so far, and the bits still to be sent: their value and their number. */
  datatype Stream = Stream(out: seq<int>, rest: nat, bits: nat)

  function Drain(a: Stream): Stream
    decreases a.bits
  {
    if a.bits < 5 then a
    else
      var b := a.bits - 5;
      Drain(Stream(a.out + [High(a.rest, b)], Low(a.rest, b), b))
  }

  function Absorbed(data: ByteString): Stream {
    if data == [] then Stream([], 0, 0)
    else
      var a := Absorbed(data[..|data| - 1]);
      Drain(Stream(a.out, a.rest * 256 + data[|data| - 1], a.bits + 8))
  }

  function Finished(a: Stream): seq<int> {
    if a.bits > 0 && a.bits <= 5 then a.out + [a.rest * Pow2(5 - a.bits)] else a.out
  }

  /** The 5-bit symbols of a byte string, the last one filled with zero bits. */
  function Symbols(data: ByteString): seq<int> { Finished(Absorbed(data)) }

  // ---------------------------------------------------------------- the encoder

  lemma Remainder(y: int, d: nat, k: int, r: nat)
    requires r < d && y == k * d + r
    ensures y / d == k && y % d == r
  {
    QuotientUnique(d, y / d, y % d, k, r);
  }

  lemma {:induction false} PowersMultiply(a: nat, b: nat)
    ensures Pow2(a + b) == Pow2(a) * Pow2(b)
  {
    if a > 0 {
      PowersMultiply(a - 1, b);
      assert Pow2(a + b) == 2 * Pow2(a - 1 + b);
      MulAssociates(2, Pow2(a - 1), Pow2(b));
    }
  }

  /** The low bits of a register with `width` new bits shifted in. */
  lemma Shifted(buffer: nat, p: nat, w: nat, low: nat)
    requires p > 0 && low < w
    ensures p * w > 0
    ensures (buffer * w + low) % (p * w) == (buffer % p) * w + low
  {
    var q, r := buffer / p, buffer % p;
    MulStrict(w, 0, p);
    MulMonotone(w, r, p - 1);
    assert buffer * w + low == q * (p * w) + (r * w + low) by {
      MulAssociates(q, p, w);
      assert (q * p + r) * w == q * p * w + r * w;
    }
    assert (p - 1) * w == p * w - w;
    Remainder(buffer * w + low, p * w, q, r * w + low);
  }

  /** Dropping the bits above a multiple of the modulus changes nothing. */
  lemma Wrapped(x: nat, d: nat, m: nat)
    requires d > 0 && m > 0
    ensures m * d > 0 && (x % (m * d)) % d == x % d
  {
    MulStrict(d, 0, m);
    var q, r := x / (m * d), x % (m * d);
    var k, s := r / d, r % d;
    MulAssociates(q, m, d);
    assert (q * m + k) * d == q * m * d + k * d;
    Remainder(x, d, q * m + k, s);
  }

  /** Shifting `width` bits into the 32-bit register keeps the pending bits and appends the new ones. */
  lemma ShiftIn(buffer: nat, bits: nat, width: nat, low: nat)
    requires bits + width <= 32 && low < Pow2(width)
    ensures Low((buffer * Pow2(width) + low) % WORD, bits + width) == Low(buffer, bits) * Pow2(width) + low
    ensures Low(buffer * Pow2(width) + low, bits + width) == Low(buffer, bits) * Pow2(width) + low
  {
    WordIsPower();
    hide Pow2;
    Shifted(buffer, Pow2(bits), Pow2(width), low);
    PowersMultiply(bits, width);
    PowersMultiply(32 - bits - width, bits + width);
    Wrapped(buffer * Pow2(width) + low, Pow2(bits + width), Pow2(32 - bits - width));
  }

  lemma WordIsPower()
    ensures Pow2(32) == WORD
  {
    assert Pow2(8) == 256;
    PowersMultiply(8, 8);
    PowersMultiply(16, 16);
  }

  lemma TopBelow(part: nat, p: nat, w: nat)
    requires p > 0 && part < w * p
    ensures part / p < w
  {
    FactorOrder(part / p, w, p);
  }

  lemma SplitTwice(buffer: nat, p: nat, w: nat)
    requires p > 0 && w > 0
    ensures w * p > 0
    ensures (buffer / p) % w == (buffer % (w * p)) / p
  {
    MulStrict(p, 0, w);
    var q, part := buffer / (w * p), buffer % (w * p);
    var top, rest := part / p, part % p;
    TopBelow(part, p, w);
    MulAssociates(q, w, p);
    assert (q * w + top) * p == q * w * p + top * p;
    Remainder(buffer, p, q * w + top, rest);
    Remainder(q * w + top, w, q, top);
  }

  /** Reading `width` bits off the top of the pending ones. */
  lemma ReadOut(buffer: nat, b: nat, width: nat)
    ensures High(buffer, b) % Pow2(width) == High(Low(buffer, b + width), b)
    ensures Low(buffer, b) == Low(Low(buffer, b + width), b)
  {
    hide Pow2;
    PowersMultiply(width, b);
    Wrapped(buffer, Pow2(b), Pow2(width));
    SplitTwice(buffer, Pow2(b), Pow2(width));
  }

  /** The encoder with its 32-bit register, whose oldest bits fall off the top. */
  method EncodeSymbols(data: ByteString) returns (out: seq<int>)
    ensures out == Symbols(data)
  {
    out := [];
    var buffer: nat, bits: nat := 0, 0;
    for i := 0 to |data|
      invariant bits < 5 && Absorbed(data[..i]) == Stream(out, Low(buffer, bits), bits)
    {
      assert data[..i + 1][..i] == data[..i];
      assert Pow2(8) == 256;
      ShiftIn(buffer, bits, 8, data[i]);
      buffer := (buffer * 256 + data[i]) % WORD;
      bits := bits + 8;
      while bits >= 5
        invariant Drain(Stream(out, Low(buffer, bits), bits)) == Absorbed(data[..i + 1])
      {
        assert Pow2(5) == 32;
        ReadOut(buffer, bits - 5, 5);
        bits := bits - 5;
        out := out + [High(buffer, bits) % 32];
      }
    }
    assert data[..|data|] == data;
    if bits > 0 {
      assert Pow2(5) == 32;
      ShiftIn(buffer, bits, 5 - bits, 0);
      out := out + [(buffer * Pow2(5 - bits)) % WORD % 32];
    }
  }

  /** The same encoder with an unbounded accumulator, as the gateway computes it. */
  method EncodeUnbounded(data: ByteString) returns (out: seq<int>)
    ensures out == Symbols(data)
  {
    out := [];
    var acc: nat, bits: nat := 0, 0;
    for i := 0 to |data|
      invariant bits < 5 && Absorbed(data[..i]) == Stream(out, Low(acc, bits), bits)
    {
      assert data[..i + 1][..i] == data[..i];
      assert Pow2(8) == 256;
      ShiftIn(acc, bits, 8, data[i]);
      acc := acc * 256 + data[i];
      bits := bits + 8;
      while bits >= 5
        invariant Drain(Stream(out, Low(acc, bits), bits)) == Absorbed(data[..i + 1])
      {
        assert Pow2(5) == 32;
        ReadOut(acc, bits - 5, 5);
        bits := bits - 5;
        out := out + [High(acc, bits) % 32];
      }
    }
    assert data[..|data|] == data;
    if bits > 0 {
      assert Pow2(5) == 32;
      ShiftIn(acc, bits, 5 - bits, 0);
      out := out + [(acc * Pow2(5 - bits)) % 32];
    }
  }

  // ---------------------------------------------------------------- the decoder

  function TakeByte(a: Stream): Stream {
    if a.bits < 8 then a
    else Stream(a.out + [High(a.rest, a.bits - 8)], Low(a.rest, a.bits - 8), a.bits - 8)
  }

  function WithSymbol(a: Stream, sym: nat): Stream { Stream(a.out, a.rest * 32 + sym, a.bits + 5) }

  function Collected(syms: seq<int>): Stream
    requires Digits(32, syms)
  {
    if syms == [] then Stream([], 0, 0)
    else
      TakeByte(WithSymbol(Collected(syms[..|syms| - 1]), syms[|syms| - 1]))
  }

  lemma CollectedAppend(syms: seq<int>, sym: int)
    requires Digits(32, syms) && 0 <= sym < 32
    ensures Digits(32, syms + [sym])
    ensures Collected(syms + [sym]) == TakeByte(WithSymbol(Collected(syms), sym))
  {
    assert (syms + [sym])[..|syms|] == syms;
  }

  function Letter(v: int): Byte requires 0 <= v < 32 { if v < 26 then 97 + v else 24 + v }

  /** The value of a character of the alphabet, lower-case letters and then the digits 2 to 7. */
  function SymbolOf(c: Byte): (v: Option<int>)
    ensures v.Some? ==> 0 <= v.value < 32
  {
    if 97 <= c <= 122 then Some(c - 97) else if 50 <= c <= 55 then Some(c - 50 + 26) else None
  }

  /** The alphabet of table 3 of RFC 4648, in lower case. */
  lemma AlphabetIs(v: int)
    requires 0 <= v < 32
    ensures Letter(v) == Ascii("abcdefghijklmnopqrstuvwxyz234567")[v]
  {
    var all := "abcdefghijklmnopqrstuvwxyz234567";
    assert all[v] as int == Letter(v);
  }

  function Letters(syms: seq<int>): (s: ByteString)
    requires Digits(32, syms)
    ensures |s| == |syms| && forall i | 0 <= i < |s| :: s[i] == Letter(syms[i])
  {
    seq(|syms|, i requires 0 <= i < |syms| => Letter(syms[i]))
  }

  ghost predicate Spelled(s: ByteString) { forall i | 0 <= i < |s| :: SymbolOf(s[i]).Some? }

  function Values(s: ByteString): (syms: seq<int>)
    requires forall i | 0 <= i < |s| :: SymbolOf(s[i]).Some?
    ensures |syms| == |s| && Digits(32, syms) && forall i | 0 <= i < |s| :: SymbolOf(s[i]) == Some(syms[i])
  {
    seq(|s|, i requires 0 <= i < |s| => SymbolOf(s[i]).value)
  }

  /** One symbol into the 32-bit register; a byte out when there is one. */
  method PushSymbol(out: ByteString, buffer: nat, bits: nat, val: int) returns (out': ByteString, buffer': nat, bits': nat)
    requires bits < 8 && 0 <= val < 32
    ensures bits' < 8
    ensures Stream(out', Low(buffer', bits'), bits') == TakeByte(Stream(out, Low(buffer, bits) * 32 + val, bits + 5))
  {
    assert Pow2(5) == 32;
    ShiftIn(buffer, bits, 5, val);
    buffer', bits', out' := (buffer * 32 + val) % WORD, bits + 5, out;
    if bits' >= 8 {
      assert Pow2(8) == 256;
      ReadOut(buffer', bits' - 8, 8);
      bits' := bits' - 8;
      out' := out' + [High(buffer', bits') % 256];
    }
  }

  /** The decoder; leftover bits are dropped. */
  method Decode(s: ByteString) returns (r: Option<ByteString>)
    ensures r.Some? <==> Spelled(s)
    ensures r.Some? ==> r.value == Collected(Values(s)).out
  {
    var out: ByteString := [];
    var buffer: nat, bits: nat := 0, 0;
    ghost var syms: seq<int> := [];
    assert Low(0, 0) == 0 && Collected([]) == Stream([], 0, 0);
    hide Low, TakeByte, SymbolOf, Collected;
    for i := 0 to |s|
      invariant bits < 8 && |syms| == i && Digits(32, syms)
      invariant forall j | 0 <= j < i :: SymbolOf(s[j]) == Some(syms[j])
      invariant Collected(syms) == Stream(out, Low(buffer, bits), bits)
    {
      var val := SymbolOf(s[i]);
      if val.None? { return None; }
      CollectedAppend(syms, val.value);
      syms := syms + [val.value];
      out, buffer, bits := PushSymbol(out, buffer, bits, val.value);
    }
    assert syms == Values(s);
    return Some(out);
  }

  // ---------------------------------------------------------------- what the two streams carry

  /** High part `v`, and a low part `r` below `p`. */
  function Mixed(v: nat, p: nat, r: nat): nat { v * p + r }

  /** Splitting off the low part of a low part is splitting off a longer high part. */
  lemma MixedAssociates(v: nat, w: nat, top: nat, p: nat, low: nat)
    ensures Mixed(v, w * p, Mixed(top, p, low)) == Mixed(Mixed(v, w, top), p, low)
  {
    MulAssociates(v, w, p);
    assert (v * w + top) * p == v * w * p + top * p;
  }

  lemma MixedBelow(top: nat, w: nat, low: nat, p: nat)
    requires top < w && low < p
    ensures Mixed(top, p, low) < w * p
  {
    MulMonotone(p, top, w - 1);
    assert (w - 1) * p == w * p - p;
  }

  /** A stream that carries the number `n` in digits of base `base` and its remaining bits. */
  ghost predicate Carries(a: Stream, base: nat, n: nat) {
    base > 0 && Digits(base, a.out) && a.rest < Pow2(a.bits) && n == Mixed(Value(base, a.out), Pow2(a.bits), a.rest)
  }

  lemma ValueAppend(b: nat, ds: seq<int>, d: int)
    requires b > 0 && Digits(b, ds) && 0 <= d < b
    ensures Digits(b, ds + [d]) && Value(b, ds + [d]) == Value(b, ds) * b + d
  {
    assert (ds + [d])[..|ds|] == ds;
  }

  /** Moving the top `width` pending bits into the output keeps the number. */
  lemma Emit(a: Stream, width: nat, b: nat, n: nat, top: nat, low: nat)
    requires a.bits == b + width && Carries(a, Pow2(width), n)
    requires a.rest == Mixed(top, Pow2(b), low) && low < Pow2(b) && top < Pow2(width)
    ensures Carries(Stream(a.out + [top], low, b), Pow2(width), n)
  {
    hide Value, Pow2, Mixed;
    PowersMultiply(width, b);
    ValueIsMixed(Pow2(width), a.out, top);
    MixedAssociates(Value(Pow2(width), a.out), Pow2(width), top, Pow2(b), low);
  }

  lemma ValueIsMixed(b: nat, ds: seq<int>, d: nat)
    requires b > 0 && Digits(b, ds) && d < b
    ensures Digits(b, ds + [d]) && Value(b, ds + [d]) == Mixed(Value(b, ds), b, d)
  {
    ValueAppend(b, ds, d);
  }

  lemma PartsOf(rest: nat, p: nat, w: nat)
    requires p > 0 && rest < w * p
    ensures rest == Mixed(rest / p, p, rest % p) && rest % p < p && rest / p < w
  {
    Division(rest, p);
    TopBelow(rest, p, w);
  }

  /** The two parts of the pending bits that a read splits. */
  lemma Parts(rest: nat, b: nat, width: nat)
    requires rest < Pow2(b + width)
    ensures rest == Mixed(High(rest, b), Pow2(b), Low(rest, b)) && Low(rest, b) < Pow2(b) && High(rest, b) < Pow2(width)
  {
    hide Pow2, Mixed;
    PowersMultiply(width, b);
    PartsOf(rest, Pow2(b), Pow2(width));
  }

  lemma Division(x: nat, p: nat)
    requires p > 0
    ensures x == (x / p) * p + x % p && x % p < p
  {}

  /** Appending `width` bits to the pending ones multiplies and adds. */
  lemma Append(a: Stream, base: nat, n: nat, width: nat, d: nat)
    requires Carries(a, base, n) && d < Pow2(width)
    ensures Carries(Stream(a.out, Mixed(a.rest, Pow2(width), d), a.bits + width), base, Mixed(n, Pow2(width), d))
  {
    hide Value, Pow2, Mixed;
    PowersMultiply(a.bits, width);
    MixedAssociates(Value(base, a.out), Pow2(a.bits), a.rest, Pow2(width), d);
    MixedBelow(a.rest, Pow2(a.bits), d, Pow2(width));
  }

  lemma {:induction false} DrainCarries(a: Stream, n: nat)
    requires Carries(a, 32, n)
    ensures Carries(Drain(a), 32, n) && Drain(a).bits < 5
    ensures 5 * |Drain(a).out| + Drain(a).bits == 5 * |a.out| + a.bits
    decreases a.bits
  {
    if a.bits >= 5 {
      var b := a.bits - 5;
      assert Pow2(5) == 32;
      hide High, Low, Mixed, Value;
      Parts(a.rest, b, 5);
      Emit(a, 5, b, n, High(a.rest, b), Low(a.rest, b));
      DrainCarries(Stream(a.out + [High(a.rest, b)], Low(a.rest, b), b), n);
    }
  }

  lemma AbsorbedOne(a: Stream, data: ByteString, byte: Byte)
    requires Digits(256, data) && Carries(a, 32, Value(256, data)) && a.bits < 5
    ensures var b := Drain(Stream(a.out, a.rest * 256 + byte, a.bits + 8));
            Digits(256, data + [byte]) && Carries(b, 32, Value(256, data + [byte])) && b.bits < 5 &&
            5 * |b.out| + b.bits == 5 * |a.out| + a.bits + 8
  {
    assert Pow2(8) == 256;
    ValueIsMixed(256, data, byte);
    Append(a, 32, Value(256, data), 8, byte);
    hide Carries, Value;
    DrainCarries(Stream(a.out, a.rest * 256 + byte, a.bits + 8), Mixed(Value(256, data), 256, byte));
  }

  ghost predicate WellAbsorbed(data: ByteString) {
    var a := Absorbed(data);
    && Digits(256, data) && Carries(a, 32, Value(256, data)) && a.bits < 5
    && 5 * |a.out| + a.bits == 8 * |data|
  }

  lemma AbsorbedAppend(data: ByteString, byte: Byte)
    ensures var a := Absorbed(data);
            Absorbed(data + [byte]) == Drain(Stream(a.out, a.rest * 256 + byte, a.bits + 8))
  {
    assert (data + [byte])[..|data|] == data;
  }

  lemma AbsorbedStep(data: ByteString, byte: Byte)
    requires WellAbsorbed(data)
    ensures WellAbsorbed(data + [byte])
  {
    hide Carries, Drain, Value, Absorbed;
    AbsorbedOne(Absorbed(data), data, byte);
    AbsorbedAppend(data, byte);
  }

  lemma {:induction false} AbsorbedCarries(data: ByteString)
    ensures WellAbsorbed(data)
  {
    if data != [] {
      hide WellAbsorbed;
      var n := |data| - 1;
      AbsorbedCarries(data[..n]);
      AbsorbedStep(data[..n], data[n]);
      assert data == data[..n] + [data[n]];
    }
  }

  /** The number of zero bits that fill the last symbol. */
  function Padding(n: nat): nat { (5 - (8 * n) % 5) % 5 }

  /** The last symbol: what is left, filled with zero bits. */
  lemma LastSymbol(a: Stream, n: nat)
    requires Carries(a, 32, n) && 0 < a.bits < 5
    ensures a.rest * Pow2(5 - a.bits) < 32
    ensures Digits(32, Finished(a)) && Value(32, Finished(a)) == n * Pow2(5 - a.bits)
  {
    var pad := 5 - a.bits;
    assert Pow2(5) == 32;
    Append(a, 32, n, pad, 0);
    PowersMultiply(a.bits, pad);
    ValueAppend(32, a.out, a.rest * Pow2(pad));
  }

  lemma PaddingFits(n: nat, symbols: nat, bits: nat)
    requires 5 * symbols + bits == 8 * n && bits < 5
    ensures Padding(n) == if bits == 0 then 0 else 5 - bits
  {}

  lemma FinishedValue(a: Stream, n: nat)
    requires Carries(a, 32, n) && a.bits < 5
    ensures Digits(32, Finished(a))
    ensures Value(32, Finished(a)) == n * Pow2(if a.bits == 0 then 0 else 5 - a.bits)
  {
    assert Pow2(0) == 1;
    if a.bits > 0 { LastSymbol(a, n); }
  }

  /** What is written: as many symbols as the bits need, and in base 32 the number that the bytes are in
      base 256, shifted by the padding. */
  lemma SymbolsValue(data: ByteString)
    ensures Digits(32, Symbols(data)) && Digits(256, data)
    ensures 5 * |Symbols(data)| == 8 * |data| + Padding(|data|)
    ensures Value(32, Symbols(data)) == Value(256, data) * Pow2(Padding(|data|))
  {
    AbsorbedCarries(data);
    var a := Absorbed(data);
    PaddingFits(|data|, |a.out|, a.bits);
    hide Absorbed, Padding, Value, Carries, Pow2;
    FinishedValue(a, Value(256, data));
  }

  lemma TakeByteCarries(a: Stream, n: nat)
    requires Carries(a, 256, n) && a.bits < 13
    ensures Carries(TakeByte(a), 256, n) && TakeByte(a).bits < 8
    ensures 8 * |TakeByte(a).out| + TakeByte(a).bits == 8 * |a.out| + a.bits
  {
    if a.bits >= 8 {
      var b := a.bits - 8;
      assert Pow2(8) == 256;
      hide High, Low, Mixed, Value;
      Parts(a.rest, b, 8);
      Emit(a, 8, b, n, High(a.rest, b), Low(a.rest, b));
    }
  }

  lemma CollectedOne(a: Stream, syms: seq<int>, sym: nat)
    requires Digits(32, syms) && sym < 32 && Carries(a, 256, Value(32, syms)) && a.bits < 8
    ensures var b := TakeByte(Stream(a.out, a.rest * 32 + sym, a.bits + 5));
            Digits(32, syms + [sym]) && Carries(b, 256, Value(32, syms + [sym])) && b.bits < 8 &&
            8 * |b.out| + b.bits == 8 * |a.out| + a.bits + 5
  {
    assert Pow2(5) == 32;
    ValueIsMixed(32, syms, sym);
    Append(a, 256, Value(32, syms), 5, sym);
    hide Carries, Value;
    TakeByteCarries(Stream(a.out, a.rest * 32 + sym, a.bits + 5), Mixed(Value(32, syms), 32, sym));
  }

  ghost predicate WellCollected(syms: seq<int>)
    requires Digits(32, syms)
  {
    var a := Collected(syms);
    Carries(a, 256, Value(32, syms)) && a.bits < 8 && 8 * |a.out| + a.bits == 5 * |syms|
  }

  lemma CollectedStep(syms: seq<int>, sym: nat)
    requires Digits(32, syms) && sym < 32 && WellCollected(syms)
    ensures Digits(32, syms + [sym]) && WellCollected(syms + [sym])
  {
    hide Carries, TakeByte, Value, Collected;
    CollectedOne(Collected(syms), syms, sym);
    CollectedAppend(syms, sym);
  }

  lemma {:induction false} CollectedCarries(syms: seq<int>)
    requires Digits(32, syms)
    ensures WellCollected(syms)
  {
    if syms != [] {
      hide WellCollected;
      var n := |syms| - 1;
      CollectedCarries(syms[..n]);
      CollectedStep(syms[..n], syms[n]);
      assert syms == syms[..n] + [syms[n]];
    }
  }

  /** Decoding the symbols of any byte string gives back the byte string. */
  lemma DecodeUndoesEncode(data: ByteString)
    ensures Digits(32, Symbols(data)) && Collected(Symbols(data)).out == data
  {
    SymbolsValue(data);
    CollectedCarries(Symbols(data));
    var a := Collected(Symbols(data));
    assert |a.out| == |data| && a.bits == Padding(|data|);
    QuotientUnique(Pow2(a.bits), Value(256, a.out), a.rest, Value(256, data), 0);
    ValueInjective(256, a.out, data);
  }

  // ---------------------------------------------------------------- content identifiers

  /** Version 1, raw codec, sha2-256 multihash, 32 bytes of digest. */
  const CID_PREFIX: ByteString := [0x01, 0x55, 0x12, 0x20]
  const MULTIBASE_B: Byte := 98

  function CidOf(d: Digest): ByteString {
    SymbolsValue(CID_PREFIX + d);
    [MULTIBASE_B] + Letters(Symbols(CID_PREFIX + d))
  }

  method CidV1RawFromDigest(d: Digest) returns (cid: ByteString)
    ensures cid == CidOf(d)
  {
    SymbolsValue(CID_PREFIX + d);
    var syms := EncodeSymbols(CID_PREFIX + d);
    cid := [MULTIBASE_B] + Letters(syms);
  }

  /** The gateway's own rendering is the same string. */
  method GatewayCid(d: Digest) returns (cid: ByteString)
    ensures cid == CidOf(d)
  {
    SymbolsValue(CID_PREFIX + d);
    var syms := EncodeUnbounded(CID_PREFIX + d);
    cid := [MULTIBASE_B] + Letters(syms);
  }

  lemma LettersRead(syms: seq<int>)
    requires Digits(32, syms)
    ensures Spelled(Letters(syms)) && Values(Letters(syms)) == syms
  {
    forall i | 0 <= i < |syms| ensures SymbolOf(Letters(syms)[i]) == Some(syms[i]) {}
  }

  /** For every byte string, reading what was written gives it back. */
  lemma TextRoundTrip(data: ByteString)
    ensures Digits(32, Symbols(data)) && Spelled(Letters(Symbols(data)))
    ensures Collected(Values(Letters(Symbols(data)))).out == data
  {
    DecodeUndoesEncode(data);
    LettersRead(Symbols(data));
  }

  /** Exactly one string names each digest, and only such strings are accepted. */
  method DigestFromCid(cid: ByteString) returns (r: Option<ByteString>)
    ensures r.Some? ==> |r.value| == 32 && cid == CidOf(r.value)
    ensures r.None? ==> forall d: Digest :: cid != CidOf(d)
  {
    forall d: Digest | cid == CidOf(d)
      ensures cid[0] == MULTIBASE_B && Spelled(cid[1..]) && Collected(Values(cid[1..])).out == CID_PREFIX + d
    {
      TextRoundTrip(CID_PREFIX + d);
      assert cid[1..] == Letters(Symbols(CID_PREFIX + d));
    }
    if cid == [] || cid[0] != MULTIBASE_B { return None; }
    var bytes := Decode(cid[1..]);
    if bytes.None? { return None; }
    if |bytes.value| != 36 || bytes.value[..4] != CID_PREFIX { return None; }
    var d: Digest := bytes.value[4..];
    var again := CidV1RawFromDigest(d);
    if again != cid { return None; }
    return Some(d);
  }

  /** No string names two digests. */
  lemma CidInjective(a: Digest, b: Digest)
    requires CidOf(a) == CidOf(b)
    ensures a == b
  {
    TextRoundTrip(CID_PREFIX + a);
    TextRoundTrip(CID_PREFIX + b);
    assert CidOf(a)[1..] == Letters(Symbols(CID_PREFIX + a));
    assert CidOf(b)[1..] == Letters(Symbols(CID_PREFIX + b));
    assert (CID_PREFIX + a)[4..] == a && (CID_PREFIX + b)[4..] == b;
  }

  // ---------------------------------------------------------------- how every identifier begins

  lemma {:induction false} DrainExtends(a: Stream)
    ensures a.out <= Drain(a).out
    decreases a.bits
  {
    if a.bits >= 5 {
      hide High, Low;
      DrainExtends(Stream(a.out + [High(a.rest, a.bits - 5)], Low(a.rest, a.bits - 5), a.bits - 5));
    }
  }

  lemma {:induction false} AbsorbedExtends(data: ByteString, more: ByteString)
    ensures Absorbed(data).out <= Absorbed(data + more).out
    decreases |more|
  {
    if more == [] {
      assert data + more == data;
    } else {
      var n := |more| - 1;
      AbsorbedExtends(data, more[..n]);
      assert data + more == (data + more[..n]) + [more[n]];
      AbsorbedAppend(data + more[..n], more[n]);
      var a := Absorbed(data + more[..n]);
      hide Absorbed, Drain;
      DrainExtends(Stream(a.out, a.rest * 256 + more[n], a.bits + 8));
    }
  }

  lemma AbsorbOne(data: ByteString, byte: Byte, a: Stream, b: Stream)
    requires Absorbed(data) == a && Drain(Stream(a.out, a.rest * 256 + byte, a.bits + 8)) == b
    ensures Absorbed(data + [byte]) == b
  {
    AbsorbedAppend(data, byte);
  }

  lemma DrainOne(out: seq<int>, rest: nat, bits: nat, top: nat, low: nat)
    requires bits >= 5 && rest == top * Pow2(bits - 5) + low && low < Pow2(bits - 5)
    ensures Drain(Stream(out, rest, bits)) == Drain(Stream(out + [top], low, bits - 5))
  {
    Remainder(rest, Pow2(bits - 5), top, low);
  }

  lemma SmallPowers()
    ensures Pow2(1) == 2 && Pow2(2) == 4 && Pow2(3) == 8 && Pow2(4) == 16 && Pow2(6) == 64 && Pow2(7) == 128
  {
    assert Pow2(4) == 16;
  }

  lemma PrefixSymbols()
    ensures Absorbed(CID_PREFIX) == Stream([0, 5, 10, 17, 4, 8], 0, 2)
  {
    SmallPowers();
    assert Absorbed([]) == Stream([], 0, 0);
    hide Pow2, Absorbed;
    DrainOne([], 0x01, 8, 0, 1);
    AbsorbOne([], 0x01, Stream([], 0, 0), Stream([0], 1, 3));
    DrainOne([0], 0x155, 11, 5, 0x15);
    DrainOne([0, 5], 0x15, 6, 10, 1);
    AbsorbOne([0x01], 0x55, Stream([0], 1, 3), Stream([0, 5, 10], 1, 1));
    DrainOne([0, 5, 10], 0x112, 9, 17, 2);
    AbsorbOne([0x01, 0x55], 0x12, Stream([0, 5, 10], 1, 1), Stream([0, 5, 10, 17], 2, 4));
    DrainOne([0, 5, 10, 17], 0x220, 12, 4, 0x20);
    DrainOne([0, 5, 10, 17, 4], 0x20, 7, 8, 0);
    AbsorbOne([0x01, 0x55, 0x12], 0x20, Stream([0, 5, 10, 17], 2, 4), Stream([0, 5, 10, 17, 4, 8], 0, 2));
    assert [] + [0x01] == [0x01] && [0x01, 0x55, 0x12] + [0x20] == CID_PREFIX;
  }

  /** The version, codec and hash every identifier names: it begins with `bafkrei`. */
  lemma CidBegins(d: Digest)
    ensures |CidOf(d)| == 59 && CidOf(d)[..7] == Ascii("bafkrei")
  {
    SymbolsValue(CID_PREFIX + d);
    AbsorbedExtends(CID_PREFIX, d);
    PrefixSymbols();
    hide Absorbed;
    var syms := Symbols(CID_PREFIX + d);
    assert Absorbed(CID_PREFIX + d).out <= syms;
    assert syms[..6] == [0, 5, 10, 17, 4, 8];
    assert forall i | 0 <= i < 6 :: Letters(syms)[i] == Letter(syms[i]);
  }
}
