/** The 0.70 wall: how many of a committee of `k` must agree, and what two such quorums share. */
module Quorum {
  import opened Bytes

  function Max(a: int, b: int): int { if a >= b then a else b }

  function Alpha(k: nat): nat { Max((k * 7 + 9) / 10, k / 2 + 1) }

  function CeilDiv(a: nat, b: nat): nat requires b > 0 { (a + b - 1) / b }

  /** A committee can always muster its quorum, except the empty one; it can spare a member from 4 on. */
  lemma AlphaReachable(k: nat)
    ensures Alpha(k) <= k <==> k >= 1
    ensures Alpha(k) <= k - 1 <==> k >= 4
  {}

  /** `Alpha` is the least count that is both 70% and a strict majority, so it clears the 60% guard. */
  lemma AlphaIsTheWall(k: nat, count: nat)
    ensures count >= Alpha(k) <==> (10 * count >= 7 * k && 2 * count > k)
    ensures count >= Alpha(k) ==> 10 * count >= 6 * k
  {}

  lemma OverlapBound(k: nat)
    ensures 2 * Alpha(k) - k >= CeilDiv(2 * k, 5)
    ensures 2 * Alpha(k) - k >= 1
  {}

  /** Two quorums of one committee intersect in at least `2 alpha - k` members. */
  lemma QuorumsIntersect<T>(committee: set<T>, a: set<T>, b: set<T>)
    requires a <= committee && b <= committee
    requires |a| >= Alpha(|committee|) && |b| >= Alpha(|committee|)
    ensures |a * b| >= 2 * Alpha(|committee|) - |committee|
    ensures |a * b| >= CeilDiv(2 * |committee|, 5) && |a * b| >= 1
  {
    CardinalityOfSubset(a + b, committee);
    assert |a + b| == |a| + |b| - |a * b|;
    OverlapBound(|committee|);
  }
}
