/** Finite real vectors indexed from 0: sums, the L1 distance, sums over a set of indices, and totals
    of lists of vectors. */
module Vectors {
  type Vec = seq<real>

  function Abs(x: real): real { if x < 0.0 then -x else x }

  function Max0(x: real): real { if x > 0.0 then x else 0.0 }

  function Power(x: real, n: nat): real { if n == 0 then 1.0 else x * Power(x, n - 1) }

  function Sum(v: Vec): real {
    if v == [] then 0.0 else Sum(v[..|v| - 1]) + v[|v| - 1]
  }

  /** The mass on the indices in `s`. */
  function SumIn(s: set<nat>, v: Vec): real {
    if v == [] then 0.0 else SumIn(s, v[..|v| - 1]) + if |v| - 1 in s then v[|v| - 1] else 0.0
  }

  /** The L1 distance. */
  function Dist(u: Vec, v: Vec): real
    requires |u| == |v|
  {
    if u == [] then 0.0 else Dist(u[..|u| - 1], v[..|v| - 1]) + Abs(u[|u| - 1] - v[|v| - 1])
  }

  function Plus(u: Vec, v: Vec): (w: Vec)
    requires |u| == |v|
    ensures |w| == |u| && forall i | 0 <= i < |u| :: w[i] == u[i] + v[i]
  {
    seq(|u|, i requires 0 <= i < |u| => u[i] + v[i])
  }

  function Scale(a: real, v: Vec): (w: Vec)
    ensures |w| == |v| && forall i | 0 <= i < |v| :: w[i] == a * v[i]
  {
    seq(|v|, i requires 0 <= i < |v| => a * v[i])
  }

  /** The distance entry by entry. */
  function Apart(u: Vec, v: Vec): (w: Vec)
    requires |u| == |v|
    ensures |w| == |u| && forall i | 0 <= i < |u| :: w[i] == Abs(u[i] - v[i])
  {
    seq(|u|, i requires 0 <= i < |u| => Abs(u[i] - v[i]))
  }

  ghost predicate NonNegative(v: Vec) { forall i | 0 <= i < |v| :: v[i] >= 0.0 }

  ghost predicate Distribution(v: Vec) { NonNegative(v) && Sum(v) == 1.0 }

  // ---------------------------------------------------------------- products of two reals

  lemma Distributes(c: real, x: real, y: real)
    ensures c * (x + y) == c * x + c * y
  {}

  lemma Associates(a: real, b: real, x: real)
    ensures a * (b * x) == (a * b) * x
  {}

  lemma AbsOfProduct(a: real, b: real, x: real)
    requires x >= 0.0
    ensures Abs(a * x - b * x) == Abs(a - b) * x
  {
    assert a * x - b * x == (a - b) * x;
  }

  lemma ProductMonotone(a: real, x: real, y: real)
    requires a >= 0.0 && x <= y
    ensures a * x <= a * y
  {
    assert a * (y - x) >= 0.0;
  }

  /** Two parts that each reach more than half of a total overlap. */
  lemma TwoMajorities(a: real, b: real, total: real, q: real)
    requires total > 0.0 && q > 0.5 && a / total >= q && b / total >= q
    ensures a + b > total
  {
    assert (a / total) * total == a && (b / total) * total == b;
    ProductMonotone(total, q, a / total);
    ProductMonotone(total, q, b / total);
    assert total * (q - 0.5) > 0.0;
  }

  lemma ShareOrder(x: real, all: real, q: real)
    requires all > 0.0
    ensures x / all >= q <==> x >= q * all
  {
    if x / all >= q {
      AtLeast(x, all, q, x / all);
    } else {
      LessThan(x, all, q, x / all);
    }
  }

  lemma AtLeast(x: real, all: real, q: real, y: real)
    requires all > 0.0 && y * all == x && y >= q
    ensures x >= q * all
  {
    ProductMonotone(all, q, y);
  }

  lemma LessThan(x: real, all: real, q: real, y: real)
    requires all > 0.0 && y * all == x && y < q
    ensures x < q * all
  {
    assert (q - y) * all > 0.0;
  }

  // ---------------------------------------------------------------- vector algebra

  lemma PlusDropsLast(u: Vec, v: Vec)
    requires |u| == |v| > 0
    ensures Plus(u, v)[..|u| - 1] == Plus(u[..|u| - 1], v[..|u| - 1])
  {}

  lemma ScaleDropsLast(a: real, v: Vec)
    requires v != []
    ensures Scale(a, v)[..|v| - 1] == Scale(a, v[..|v| - 1])
  {
    var n := |v| - 1;
    forall i | 0 <= i < n ensures Scale(a, v)[i] == Scale(a, v[..n])[i] { assert v[..n][i] == v[i]; }
  }

  lemma {:induction false} SumPlus(s: set<nat>, u: Vec, v: Vec)
    requires |u| == |v|
    ensures Sum(Plus(u, v)) == Sum(u) + Sum(v)
    ensures SumIn(s, Plus(u, v)) == SumIn(s, u) + SumIn(s, v)
  {
    if u != [] {
      SumPlus(s, u[..|u| - 1], v[..|u| - 1]);
      PlusDropsLast(u, v);
    }
  }

  lemma {:induction false} SumScale(a: real, v: Vec)
    ensures Sum(Scale(a, v)) == a * Sum(v)
  {
    if v != [] {
      var n := |v| - 1;
      SumScale(a, v[..n]);
      ScaleDropsLast(a, v);
      Distributes(a, Sum(v[..n]), v[n]);
    }
  }

  lemma {:induction false} SumInScale(s: set<nat>, a: real, v: Vec)
    ensures SumIn(s, Scale(a, v)) == a * SumIn(s, v)
  {
    if v != [] {
      var n := |v| - 1;
      SumInScale(s, a, v[..n]);
      ScaleDropsLast(a, v);
      if n in s { Distributes(a, SumIn(s, v[..n]), v[n]); }
    }
  }

  lemma PlusNonNegative(u: Vec, v: Vec)
    requires |u| == |v| && NonNegative(u) && NonNegative(v)
    ensures NonNegative(Plus(u, v))
  {}

  lemma ScaledNonNegative(a: real, v: Vec)
    requires a >= 0.0 && NonNegative(v)
    ensures NonNegative(Scale(a, v))
  {
    forall i | 0 <= i < |v| ensures Scale(a, v)[i] >= 0.0 { ProductMonotone(a, 0.0, v[i]); }
  }

  lemma ScaleSum(a: real, b: real, v: Vec)
    ensures Scale(a + b, v) == Plus(Scale(a, v), Scale(b, v))
  {
    forall i | 0 <= i < |v| ensures Scale(a + b, v)[i] == Plus(Scale(a, v), Scale(b, v))[i] { Distributes(v[i], a, b); }
  }

  lemma ScaleScale(a: real, b: real, v: Vec)
    ensures Scale(a, Scale(b, v)) == Scale(a * b, v)
  {
    forall i | 0 <= i < |v| ensures Scale(a, Scale(b, v))[i] == Scale(a * b, v)[i] { Associates(a, b, v[i]); }
  }

  lemma ScalePlus(a: real, u: Vec, v: Vec)
    requires |u| == |v|
    ensures Scale(a, Plus(u, v)) == Plus(Scale(a, u), Scale(a, v))
  {
    forall i | 0 <= i < |v| ensures Scale(a, Plus(u, v))[i] == Plus(Scale(a, u), Scale(a, v))[i] { Distributes(a, u[i], v[i]); }
  }

  lemma Exchange(a: Vec, b: Vec, c: Vec, d: Vec)
    requires |a| == |b| == |c| == |d|
    ensures Plus(Plus(a, b), Plus(c, d)) == Plus(Plus(a, c), Plus(b, d))
  {
    forall i | 0 <= i < |a| ensures Plus(Plus(a, b), Plus(c, d))[i] == Plus(Plus(a, c), Plus(b, d))[i] {}
  }

  lemma Silent(u: Vec, e: real, v: Vec)
    requires |u| == |v| && e == 0.0
    ensures Plus(u, Scale(e, v)) == u
  {}

  // ---------------------------------------------------------------- distance and order

  lemma {:induction false} DistIsSum(u: Vec, v: Vec)
    requires |u| == |v|
    ensures Dist(u, v) == Sum(Apart(u, v))
  {
    if u != [] {
      var n := |u| - 1;
      DistIsSum(u[..n], v[..n]);
      assert Apart(u, v)[..n] == Apart(u[..n], v[..n]);
    }
  }

  lemma {:induction false} DistPlus(u: Vec, x: Vec, w: Vec, y: Vec)
    requires |u| == |x| == |w| == |y|
    ensures Dist(Plus(u, x), Plus(w, y)) <= Dist(u, w) + Dist(x, y)
  {
    if u != [] {
      var n := |u| - 1;
      DistPlus(u[..n], x[..n], w[..n], y[..n]);
      PlusDropsLast(u, x);
      PlusDropsLast(w, y);
    }
  }

  lemma ApartScale(a: real, b: real, v: Vec)
    requires NonNegative(v)
    ensures Apart(Scale(a, v), Scale(b, v)) == Scale(Abs(a - b), v)
  {
    var u, w := Apart(Scale(a, v), Scale(b, v)), Scale(Abs(a - b), v);
    forall i | 0 <= i < |v| ensures u[i] == w[i] {
      var x := v[i];
      AbsOfProduct(a, b, x);
    }
  }

  lemma DistByApart(x: Vec, y: Vec, c: real, v: Vec)
    requires |x| == |y| && Apart(x, y) == Scale(c, v)
    ensures Dist(x, y) == c * Sum(v)
  {
    DistIsSum(x, y);
    SumScale(c, v);
  }

  /** Two multiples of one distribution lie apart by the difference of the multiples. */
  lemma DistScale(a: real, b: real, v: Vec)
    requires Distribution(v)
    ensures Dist(Scale(a, v), Scale(b, v)) == Abs(a - b)
  {
    var x, y, c := Scale(a, v), Scale(b, v), Abs(a - b);
    ApartScale(a, b, v);
    DistByApart(x, y, c, v);
  }

  lemma {:induction false} DistZero(u: Vec, v: Vec)
    requires |u| == |v|
    ensures Dist(u, v) >= 0.0
    ensures Dist(u, v) == 0.0 <==> u == v
  {
    if u != [] {
      var n := |u| - 1;
      DistZero(u[..n], v[..n]);
      assert u == u[..n] + [u[n]] && v == v[..n] + [v[n]];
    }
  }

  lemma {:induction false} Triangle(u: Vec, v: Vec, w: Vec)
    requires |u| == |v| == |w|
    ensures Dist(u, w) <= Dist(u, v) + Dist(v, w)
    ensures Dist(u, v) == Dist(v, u)
  {
    if u != [] {
      var n := |u| - 1;
      Triangle(u[..n], v[..n], w[..n]);
    }
  }

  lemma {:induction false} DistOfDistributions(u: Vec, v: Vec)
    requires |u| == |v| && NonNegative(u) && NonNegative(v)
    ensures Dist(u, v) <= Sum(u) + Sum(v)
  {
    if u != [] {
      var n := |u| - 1;
      assert NonNegative(u[..n]) && NonNegative(v[..n]);
      DistOfDistributions(u[..n], v[..n]);
    }
  }

  lemma {:induction false} SumInWithin(s: set<nat>, v: Vec)
    requires NonNegative(v)
    ensures 0.0 <= SumIn(s, v) <= Sum(v)
    ensures forall i | 0 <= i < |v| && i in s :: v[i] <= SumIn(s, v)
  {
    if v != [] {
      var n := |v| - 1;
      assert NonNegative(v[..n]);
      SumInWithin(s, v[..n]);
      assert forall i | 0 <= i < n :: v[..n][i] == v[i];
    }
  }

  lemma {:induction false} SumInZero(s: set<nat>, v: Vec)
    requires forall i | 0 <= i < |v| && i in s :: v[i] == 0.0
    ensures SumIn(s, v) == 0.0
  {
    if v != [] { SumInZero(s, v[..|v| - 1]); }
  }

  lemma {:induction false} SumInMonotone(s: set<nat>, u: Vec, v: Vec)
    requires |u| == |v| && forall i | 0 <= i < |u| && i in s :: u[i] <= v[i]
    ensures SumIn(s, u) <= SumIn(s, v)
  {
    if u != [] { SumInMonotone(s, u[..|u| - 1], v[..|u| - 1]); }
  }

  lemma {:induction false} SumInOne(i: nat, v: Vec)
    requires i < |v|
    ensures SumIn({i}, v) == v[i]
  {
    var n := |v| - 1;
    if i == n {
      var rest := v[..n];
      OutOfRange(i, rest);
    } else {
      SumInOne(i, v[..n]);
    }
  }

  lemma {:induction false} OutOfRange(i: nat, v: Vec)
    requires i >= |v|
    ensures SumIn({i}, v) == 0.0
  {
    if v != [] { OutOfRange(i, v[..|v| - 1]); }
  }

  function Others(s: set<nat>, n: nat): set<nat> { set i: nat | i < n && i !in s }

  lemma {:induction false} SumSplits(s: set<nat>, v: Vec, n: nat)
    requires n >= |v|
    ensures Sum(v) == SumIn(s, v) + SumIn(Others(s, n), v)
  {
    if v != [] { SumSplits(s, v[..|v| - 1], n); }
  }

  lemma {:induction false} SumUpdate(v: Vec, i: nat, x: real)
    requires i < |v|
    ensures Sum(v[i := x]) == Sum(v) + (x - v[i])
  {
    var n := |v| - 1;
    if i < n {
      SumUpdate(v[..n], i, x);
      assert v[i := x][..n] == v[..n][i := x];
    } else {
      assert v[i := x][..n] == v[..n];
    }
  }

  // ---------------------------------------------------------------- totals of vectors

  type Matrix = seq<Vec>

  predicate Square(m: Matrix, n: nat) { |m| == n && forall i | 0 <= i < n :: |m[i]| == n }

  /** `base + rows[0] + ... + rows[i - 1]`. */
  function Total(base: Vec, rows: Matrix, i: nat): (v: Vec)
    requires Square(rows, |base|) && i <= |base|
    ensures |v| == |base|
  {
    if i == 0 then base else Plus(Total(base, rows, i - 1), rows[i - 1])
  }

  function Masses(s: set<nat>, rows: Matrix): (g: Vec)
    ensures |g| == |rows| && forall i | 0 <= i < |rows| :: g[i] == SumIn(s, rows[i])
  {
    seq(|rows|, i requires 0 <= i < |rows| => SumIn(s, rows[i]))
  }

  lemma {:induction false} TotalMass(s: set<nat>, base: Vec, rows: Matrix, i: nat)
    requires Square(rows, |base|) && i <= |base|
    ensures SumIn(s, Total(base, rows, i)) == SumIn(s, base) + Sum(Masses(s, rows)[..i])
  {
    if i > 0 {
      TotalMass(s, base, rows, i - 1);
      SumPlus(s, Total(base, rows, i - 1), rows[i - 1]);
      assert Masses(s, rows)[..i][..i - 1] == Masses(s, rows)[..i - 1];
    }
  }

  lemma {:induction false} TotalNonNegative(base: Vec, rows: Matrix, i: nat)
    requires Square(rows, |base|) && i <= |base| && NonNegative(base)
    requires forall k | 0 <= k < |rows| :: NonNegative(rows[k])
    ensures NonNegative(Total(base, rows, i))
  {
    if i > 0 {
      TotalNonNegative(base, rows, i - 1);
      PlusNonNegative(Total(base, rows, i - 1), rows[i - 1]);
    }
  }

  /** Two totals over the same base are no further apart than their rows. */
  lemma {:induction false} TotalsApart(base: Vec, x: Matrix, y: Matrix, d: Vec, i: nat)
    requires Square(x, |base|) && Square(y, |base|) && i <= |base| == |d|
    requires forall k | 0 <= k < |base| :: Dist(x[k], y[k]) <= d[k]
    ensures Dist(Total(base, x, i), Total(base, y, i)) <= Sum(d[..i])
  {
    if i == 0 {
      DistZero(base, base);
    } else {
      TotalsApart(base, x, y, d, i - 1);
      DistPlus(Total(base, x, i - 1), x[i - 1], Total(base, y, i - 1), y[i - 1]);
      assert d[..i][..i - 1] == d[..i - 1];
    }
  }
}
