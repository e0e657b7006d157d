/** Fixed-point sortition: mode-anchored Poisson weights in integers and the inverse-CDF walk that
    turns a draw into seats. Every division is of non-negative numbers, where truncation is floor. */
module Sortition {
  import opened Numerals

  const FP := 1_000_000_000
  const ANCHOR := 1_000_000_000_000_000_000
  const I128_MAX := 0x7FFF_FFFF_FFFF_FFFF_FFFF_FFFF_FFFF_FFFF
  const MAX_TAU := 0xFFFF_FFFF

  function Mode(lam: nat): nat { Quot(lam, FP) }

  /** The weight `i` steps above the mode. */
  function Up(lam: nat, i: nat): nat {
    if i == 0 then ANCHOR else Quot(Quot(Times(Up(lam, i - 1), lam), FP), Mode(lam) + i)
  }

  /** The weight `i` steps below the mode. */
  function Down(lam: nat, i: nat): nat
    requires lam > 0 && i <= Mode(lam)
  {
    if i == 0 then ANCHOR else Quot(Times(Down(lam, i - 1), Mode(lam) - i + 1) * FP, lam)
  }

  function Weight(lam: nat, k: nat): nat
    requires lam > 0
  {
    if k >= Mode(lam) then Up(lam, k - Mode(lam)) else Down(lam, Mode(lam) - k)
  }

  lemma WeightAbove(lam: nat, k: nat)
    requires lam > 0 && k >= Mode(lam)
    ensures Weight(lam, k + 1) == Quot(Quot(Times(Weight(lam, k), lam), FP), k + 1)
  {}

  lemma WeightBelow(lam: nat, k: nat)
    requires lam > 0 && k < Mode(lam)
    ensures Weight(lam, k) == Quot(Times(Weight(lam, k + 1), k + 1) * FP, lam)
  {}

  // ---------------------------------------------------------------- shape of the window

  lemma ModeBounds(lam: nat)
    ensures Mode(lam) * FP <= lam < (Mode(lam) + 1) * FP
  {}

  /** One step up from index `k`: strictly smaller, and less than half from twice the mode on. */
  lemma UpStep(w: nat, lam: nat, m: nat, k: nat)
    requires lam < (m + 1) * FP && k >= m && w > 0
    ensures var w' := Quot(Quot(Times(w, lam), FP), k + 1);
      w' < w && (k >= 2 * m + 1 ==> 2 * w' < w)
  {
    MulStrict(w, lam, (m + 1) * FP);
    MulAssociates(w, m + 1, FP);
    QuotBelow(w * lam, w * (m + 1), FP);
    UpDivide(Quot(w * lam, FP), w, m, k);
  }

  lemma UpDivide(q: nat, w: nat, m: nat, k: nat)
    requires q < w * (m + 1) && k >= m
    ensures Quot(q, k + 1) < w && (k >= 2 * m + 1 ==> 2 * Quot(q, k + 1) < w)
  {
    MulMonotone(w, m + 1, k + 1);
    QuotBelow(q, w, k + 1);
    if k >= 2 * m + 1 {
      MulMonotone(w, 2 * (m + 1), k + 1);
      MulAssociates(2, w, m + 1);
      MulAssociates(w, 2, m + 1);
      MulAssociates(2, Quot(q, k + 1), k + 1);
      FactorOrder(2 * Quot(q, k + 1), w, k + 1);
    }
  }

  lemma StrictlyDecreasingAfterMode(lam: nat, k: nat)
    requires lam > 0 && k >= Mode(lam) && Weight(lam, k) > 0
    ensures Weight(lam, k + 1) < Weight(lam, k)
    ensures k >= 2 * Mode(lam) + 1 ==> 2 * Weight(lam, k + 1) < Weight(lam, k)
  {
    ModeBounds(lam);
    WeightAbove(lam, k);
    UpStep(Weight(lam, k), lam, Mode(lam), k);
  }

  lemma NonDecreasingToMode(lam: nat, k: nat)
    requires lam > 0 && k < Mode(lam)
    ensures Weight(lam, k) <= Weight(lam, k + 1)
  {
    ModeBounds(lam);
    var w := Weight(lam, k + 1);
    WeightBelow(lam, k);
    DownDivide(w, k + 1, Mode(lam), lam);
  }

  lemma DownDivide(w: nat, k: nat, m: nat, lam: nat)
    requires k <= m && m * FP <= lam && lam > 0
    ensures Quot(Times(w, k) * FP, lam) <= w
  {
    MulAssociates(w, k, FP);
    MulMonotone(FP, k, m);
    MulMonotone(w, k * FP, lam);
    QuotMonotone(w * k * FP, w * lam, lam);
    QuotExact(w, lam);
  }

  lemma {:induction false} ZeroStaysZero(lam: nat, k: nat, n: nat)
    requires lam > 0 && Mode(lam) <= k <= n && Weight(lam, k) == 0
    ensures Weight(lam, n) == 0
    decreases n - k
  {
    if k < n {
      ZeroStaysZero(lam, k, n - 1);
      assert Quot(0 * lam, FP) == 0;
    }
  }

  lemma {:induction false} AtMostAnchorAbove(lam: nat, k: nat)
    requires lam > 0 && k >= Mode(lam)
    ensures Weight(lam, k) <= ANCHOR
    decreases k
  {
    if k > Mode(lam) {
      AtMostAnchorAbove(lam, k - 1);
      if Weight(lam, k - 1) > 0 { StrictlyDecreasingAfterMode(lam, k - 1); } else { ZeroStaysZero(lam, k - 1, k); }
    }
  }

  lemma {:induction false} AtMostAnchorBelow(lam: nat, k: nat)
    requires lam > 0 && k <= Mode(lam)
    ensures Weight(lam, k) <= ANCHOR
    decreases Mode(lam) - k
  {
    if k < Mode(lam) {
      NonDecreasingToMode(lam, k);
      AtMostAnchorBelow(lam, k + 1);
    }
  }

  lemma AtMostAnchor(lam: nat, k: nat)
    requires lam > 0
    ensures Weight(lam, k) <= ANCHOR
  {
    if k >= Mode(lam) { AtMostAnchorAbove(lam, k); } else { AtMostAnchorBelow(lam, k); }
  }

  lemma HalvesAbove(lam: nat, k: nat)
    requires lam > 0 && k >= 2 * Mode(lam) + 1
    ensures 2 * Weight(lam, k + 1) <= Weight(lam, k)
  {
    if Weight(lam, k) == 0 { ZeroStaysZero(lam, k, k + 1); } else { StrictlyDecreasingAfterMode(lam, k); }
  }

  lemma {:induction false} Halving(lam: nat, j: nat)
    requires lam > 0
    ensures Weight(lam, 2 * Mode(lam) + 1 + j) * Pow(2, j) < Pow(2, 60)
  {
    var k := 2 * Mode(lam) + 1 + j;
    if j == 0 {
      AtMostAnchor(lam, k);
      Pow2Of60();
    } else {
      Halving(lam, j - 1);
      var w, w' := Weight(lam, k - 1), Weight(lam, k);
      HalvesAbove(lam, k - 1);
      HalfPower(w', w, Pow(2, j - 1));
    }
  }

  lemma HalfPower(w': nat, w: nat, p: nat)
    requires 2 * w' <= w
    ensures w' * (2 * p) <= w * p
  {
    MulMonotone(p, 2 * w', w);
    MulAssociates(w', 2, p);
  }

  lemma Pow2Of60()
    ensures Pow(2, 60) > ANCHOR
  {
    assert Pow(2, 10) == 1024;
    PowSum(2, 10, 10);
    PowSum(2, 20, 20);
    PowSum(2, 40, 20);
  }

  lemma {:induction false} PowSum(b: nat, x: nat, y: nat)
    ensures Pow(b, x + y) == Pow(b, x) * Pow(b, y)
  {
    if x > 0 {
      PowSum(b, x - 1, y);
      assert b * Pow(b, x - 1) * Pow(b, y) == b * (Pow(b, x - 1) * Pow(b, y));
    }
  }

  /** The window closes: no weight survives at index `2 * mode + 61`. */
  lemma WindowCloses(lam: nat)
    requires lam > 0
    ensures Weight(lam, 2 * Mode(lam) + 61) == 0
  {
    Halving(lam, 60);
    var w := Weight(lam, 2 * Mode(lam) + 61);
    if w >= 1 { MulMonotone(Pow(2, 60), 1, w); }
  }

  /** The first index from `k` on whose weight is zero. */
  function FirstZero(lam: nat, k: nat): (n: nat)
    requires lam > 0 && Mode(lam) <= k <= 2 * Mode(lam) + 61
    ensures k <= n <= 2 * Mode(lam) + 61 && Weight(lam, n) == 0
    ensures forall i | k <= i < n :: Weight(lam, i) > 0
    decreases 2 * Mode(lam) + 61 - k
  {
    WindowCloses(lam);
    if Weight(lam, k) == 0 then k else FirstZero(lam, k + 1)
  }

  function Window(lam: nat): (n: nat)
    requires lam > 0
    ensures Mode(lam) < n <= 2 * Mode(lam) + 61 && Weight(lam, n) == 0
    ensures forall i | Mode(lam) <= i < n :: Weight(lam, i) > 0
  {
    FirstZero(lam, Mode(lam))
  }

  function Weights(lam: nat): (ws: seq<nat>)
    requires lam > 0
    ensures |ws| == Window(lam)
  {
    seq(Window(lam), k requires 0 <= k < Window(lam) => Weight(lam, k))
  }

  function Sum(ws: seq<nat>): nat { if ws == [] then 0 else Sum(ws[..|ws| - 1]) + ws[|ws| - 1] }

  lemma WindowEnds(lam: nat, n: nat)
    requires lam > 0 && n > Mode(lam) && Weight(lam, n) == 0
    requires forall i | Mode(lam) <= i < n :: Weight(lam, i) > 0
    ensures n == Window(lam)
  {
    assert Weight(lam, Window(lam)) == 0;
  }

  lemma {:induction false} ZeroBelow(lam: nat, k: nat, i: nat)
    requires lam > 0 && i <= k <= Mode(lam) && Weight(lam, k) == 0
    ensures Weight(lam, i) == 0
    decreases k - i
  {
    if i < k {
      NonDecreasingToMode(lam, k - 1);
      ZeroBelow(lam, k - 1, i);
    }
  }

  /** The upward half: weights from the mode until the first that underflows. */
  method WeightsUp(lam: nat) returns (up: seq<nat>)
    requires lam > 0
    ensures Mode(lam) + |up| == Window(lam)
    ensures forall i | 0 <= i < |up| :: up[i] == Weight(lam, Mode(lam) + i)
  {
    var m := Mode(lam);
    up := [ANCHOR];
    var w: nat, k := ANCHOR, m;
    while true
      invariant m <= k && |up| == k - m + 1 && w == Weight(lam, k) && w > 0
      invariant forall i | 0 <= i < |up| :: up[i] == Weight(lam, m + i)
      invariant forall i | m <= i <= k :: Weight(lam, i) > 0
      decreases w
    {
      StrictlyDecreasingAfterMode(lam, k);
      WeightAbove(lam, k);
      w := Quot(Quot(Times(w, lam), FP), k + 1);
      if w == 0 { break; }
      up := up + [w];
      k := k + 1;
    }
    WindowEnds(lam, k + 1);
  }

  /** The downward half: weights from below the mode to index 0 or the first that underflows. */
  method WeightsDown(lam: nat) returns (down: seq<nat>)
    requires lam > 0
    ensures |down| <= Mode(lam)
    ensures forall i | 0 <= i < |down| :: down[i] == Weight(lam, Mode(lam) - 1 - i)
    ensures forall i | 0 <= i < Mode(lam) - |down| :: Weight(lam, i) == 0
  {
    var m := Mode(lam);
    down := [];
    var w: nat, k := ANCHOR, m;
    while k > 0
      invariant 0 <= k <= m && |down| == m - k && w == Weight(lam, k)
      invariant forall i | 0 <= i < |down| :: down[i] == Weight(lam, m - 1 - i)
    {
      WeightBelow(lam, k - 1);
      w := Quot(Times(w, k) * FP, lam);
      if w == 0 {
        forall i | 0 <= i < k ensures Weight(lam, i) == 0 { ZeroBelow(lam, k - 1, i); }
        break;
      }
      down := down + [w];
      k := k - 1;
    }
  }

  method PoissonWeights(lam: nat) returns (wts: seq<nat>, total: nat)
    requires lam > 0
    ensures wts == Weights(lam) && total == Sum(wts)
  {
    var m := Mode(lam);
    var up := WeightsUp(lam);
    var down := WeightsDown(lam);
    wts := seq(m + |up|, _ => 0);
    for i := 0 to |up|
      invariant |wts| == m + |up| && (forall k | 0 <= k < m :: wts[k] == 0)
      invariant forall k | m <= k < m + i :: wts[k] == Weight(lam, k)
    {
      wts := wts[m + i := up[i]];
    }
    for i := 0 to |down|
      invariant |wts| == m + |up| && (forall k | 0 <= k < m - i :: wts[k] == 0)
      invariant forall k | m - i <= k < |wts| :: wts[k] == Weight(lam, k)
    {
      wts := wts[m - 1 - i := down[i]];
    }
    assert wts == Weights(lam);
    total := Sum(wts);
  }

  // ---------------------------------------------------------------- the distribution function

  lemma {:induction false} SumPrefixMonotone(ws: seq<nat>, i: nat, j: nat)
    requires i <= j <= |ws|
    ensures Sum(ws[..i]) <= Sum(ws[..j])
    decreases j
  {
    if i < j {
      SumPrefixMonotone(ws, i, j - 1);
      assert ws[..j][..j - 1] == ws[..j - 1];
    }
  }

  lemma {:induction false} SumAtLeast(ws: seq<nat>, i: nat)
    requires i < |ws|
    ensures Sum(ws) >= ws[i]
    decreases |ws|
  {
    if i < |ws| - 1 { SumAtLeast(ws[..|ws| - 1], i); }
  }

  lemma TotalPositive(lam: nat)
    requires lam > 0
    ensures Sum(Weights(lam)) >= ANCHOR
  {
    SumAtLeast(Weights(lam), Mode(lam));
  }

  /** The sum of the first `n` weights, or of all of them past the window's end. */
  function Cumulative(ws: seq<nat>, n: nat): nat { Sum(ws[..if n < |ws| then n else |ws|]) }

  lemma CumulativeStep(ws: seq<nat>, n: nat)
    ensures Cumulative(ws, n + 1) == Cumulative(ws, n) + if n < |ws| then ws[n] else 0
  {
    if n < |ws| { assert ws[..n + 1][..n] == ws[..n]; }
  }

  function Share(cumulative: nat, total: nat): nat requires total > 0 {
    var x := Quot(cumulative * FP, total);
    if x < FP then x else FP
  }

  /** `P(X <= j)` in fixed point. */
  function Cdf(lam: int, j: nat): nat {
    if lam <= 0 then FP
    else
      TotalPositive(lam);
      Share(Cumulative(Weights(lam), j + 1), Sum(Weights(lam)))
  }

  // In the two readers below the programs also guard against a zero total; `TotalPositive` shows that
  // branch is never taken.

  method PoissonCdf(j: nat, lam: int) returns (p: nat)
    ensures p == Cdf(lam, j)
  {
    if lam <= 0 { return FP; }
    var wts, total := PoissonWeights(lam);
    TotalPositive(lam);
    var upper := if j < |wts| - 1 then j else |wts| - 1;
    var partial := Sum(wts[0..upper + 1]);
    assert wts[0..upper + 1] == wts[..upper + 1];
    p := Share(partial, total);
  }

  /** The distribution function never decreases, never exceeds 1, and reaches 1 at the window's end. */
  lemma CdfMonotone(lam: int, i: nat, j: nat)
    requires i <= j
    ensures Cdf(lam, i) <= Cdf(lam, j) <= FP
    ensures lam > 0 && j + 1 >= Window(lam) ==> Cdf(lam, j) == FP
  {
    if lam > 0 {
      var ws := Weights(lam);
      TotalPositive(lam);
      var a, b := Cumulative(ws, i + 1), Cumulative(ws, j + 1);
      SumPrefixMonotone(ws, if i + 1 < |ws| then i + 1 else |ws|, if j + 1 < |ws| then j + 1 else |ws|);
      MulMonotone(FP, a, b);
      QuotMonotone(a * FP, b * FP, Sum(ws));
      if j + 1 >= |ws| {
        assert ws[..|ws|] == ws;
        MulCommutes(FP, Sum(ws));
        QuotExact(FP, Sum(ws));
      }
    }
  }

  predicate Exceeds(ws: seq<nat>, total: nat, j: nat, value: int) requires total > 0 {
    value < Share(Cumulative(ws, j + 1), total)
  }

  /** The least `j` from `from` on whose share of the total exceeds the draw, or `max`. */
  function FirstAbove(value: int, ws: seq<nat>, total: nat, from: nat, max: nat): (j: nat)
    requires from <= max && total > 0
    ensures from <= j <= max
    ensures forall i | from <= i < j :: !Exceeds(ws, total, i, value)
    ensures j < max ==> Exceeds(ws, total, j, value)
    decreases max - from
  {
    if from == max || Exceeds(ws, total, from, value) then from else FirstAbove(value, ws, total, from + 1, max)
  }

  /** The least seat count whose distribution value exceeds the draw, capped. */
  function Seats(value: int, lam: int, max: nat): (seats: nat)
    ensures seats <= max && (lam <= 0 ==> seats == 0)
    ensures lam > 0 ==> forall i | 0 <= i < seats :: value >= Cdf(lam, i)
    ensures lam > 0 && seats < max ==> value < Cdf(lam, seats)
  {
    if lam <= 0 then 0
    else
      TotalPositive(lam);
      assert forall i: nat :: Exceeds(Weights(lam), Sum(Weights(lam)), i, value) == (value < Cdf(lam, i));
      FirstAbove(value, Weights(lam), Sum(Weights(lam)), 0, max)
  }

  /** One pass over a window, accumulating. */
  method Walk(value: int, wts: seq<nat>, total: nat, maxSeats: nat) returns (j: nat)
    requires total > 0
    ensures j == FirstAbove(value, wts, total, 0, maxSeats)
  {
    var cum := 0;
    j := 0;
    while j < maxSeats
      invariant 0 <= j <= maxSeats && cum == Cumulative(wts, j)
      invariant FirstAbove(value, wts, total, 0, maxSeats) == FirstAbove(value, wts, total, j, maxSeats)
    {
      CumulativeStep(wts, j);
      if j < |wts| {
        cum := cum + wts[j];
      }
      assert Exceeds(wts, total, j, value) == (value < Share(cum, total));
      if value < Share(cum, total) {
        return j;
      }
      j := j + 1;
    }
    return maxSeats;
  }

  method SortitionSeats(value: int, lam: int, maxSeats: nat) returns (seats: nat)
    ensures seats == Seats(value, lam, maxSeats)
  {
    if lam <= 0 { return 0; }
    var wts, total := PoissonWeights(lam);
    TotalPositive(lam);
    seats := Walk(value, wts, total, maxSeats);
  }

  /** A larger draw never earns fewer seats, and a proper draw against a window that fits earns fewer
      than the cap. */
  lemma SeatsMonotone(v: int, v': int, lam: int, max: nat)
    requires v <= v'
    ensures Seats(v, lam, max) <= Seats(v', lam, max)
    ensures lam > 0 && v < FP && Window(lam) <= max ==> Seats(v, lam, max) < max
  {
    if lam > 0 && v < FP && Window(lam) <= max {
      CdfMonotone(lam, Window(lam) - 1, Window(lam) - 1);
    }
  }

  // ---------------------------------------------------------------- 128-bit arithmetic suffices

  lemma {:induction false} SumAtMost(ws: seq<nat>, bound: nat)
    requires forall i | 0 <= i < |ws| :: ws[i] <= bound
    ensures Sum(ws) <= |ws| * bound
    decreases |ws|
  {
    if ws != [] { SumAtMost(ws[..|ws| - 1], bound); }
  }

  /** For every expectation a 32-bit `tau` can produce, no intermediate product of the weight recursion
      or of the walk leaves the signed 128-bit range. */
  lemma ProductsFitI128(lam: nat, k: nat, n: nat)
    requires 0 < lam <= MAX_TAU * FP
    ensures Weight(lam, k) * lam <= I128_MAX
    ensures k <= Mode(lam) ==> Weight(lam, k) * k * FP <= I128_MAX
    ensures n <= Window(lam) ==> Sum(Weights(lam)[..n]) * FP <= I128_MAX
  {
    AtMostAnchor(lam, k);
    ModeBounds(lam);
    MulMonotone(lam, Weight(lam, k), ANCHOR);
    if k <= Mode(lam) {
      MulMonotone(k, Weight(lam, k), ANCHOR);
    }
    if n <= Window(lam) {
      forall i | 0 <= i < n ensures Weights(lam)[i] <= ANCHOR { AtMostAnchor(lam, i); }
      SumAtMost(Weights(lam)[..n], ANCHOR);
    }
  }
}
