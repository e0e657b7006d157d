/** Sponsorship links and cascade slashing: a proven fraud charges the culprit, and a fraction of the
    charge travels up every sponsor link, to a bounded depth. */
module Vouch {
  import opened Vectors

  type Agent = string

  datatype Sponsorship = Sponsorship(sponsor: Agent, protege: Agent, live: bool)

  /** The sponsors of an agent, in link order, graduated links included. */
  function SponsorsOf(links: seq<Sponsorship>, protege: Agent): seq<Agent> {
    if links == [] then []
    else
      SponsorsOf(links[..|links| - 1], protege) +
      if links[|links| - 1].protege == protege then [links[|links| - 1].sponsor] else []
  }

  function LiveVouches(links: seq<Sponsorship>, sponsor: Agent): nat {
    if links == [] then 0
    else
      LiveVouches(links[..|links| - 1], sponsor) +
      if links[|links| - 1].sponsor == sponsor && links[|links| - 1].live then 1 else 0
  }

  predicate Releases(v: Sponsorship, sponsor: Agent, protege: Agent) {
    v.sponsor == sponsor && v.protege == protege && v.live
  }

  /** The same links, whatever their liveness. */
  ghost predicate SameEnds(a: seq<Sponsorship>, b: seq<Sponsorship>) {
    |a| == |b| && forall i | 0 <= i < |a| :: a[i].sponsor == b[i].sponsor && a[i].protege == b[i].protege
  }

  class VouchRegistry {
    var links: seq<Sponsorship>

    constructor ()
      ensures links == []
    {
      links := [];
    }

    method SponsorLink(sponsor: Agent, protege: Agent)
      modifies this
      ensures links == old(links) + [Sponsorship(sponsor, protege, true)]
      ensures forall x :: LiveVouches(links, x) == LiveVouches(old(links), x) + if x == sponsor then 1 else 0
    {
      assert (links + [Sponsorship(sponsor, protege, true)])[..|links|] == links;
      links := links + [Sponsorship(sponsor, protege, true)];
    }

    /** Releases the live links of the pair. They stay in the registry and stay liable. */
    method Graduate(sponsor: Agent, protege: Agent) returns (graduated: bool)
      modifies this
      ensures SameEnds(links, old(links))
      ensures forall i | 0 <= i < |links| :: links[i].live == (old(links)[i].live && !Releases(old(links)[i], sponsor, protege))
      ensures graduated <==> exists i :: 0 <= i < |links| && Releases(old(links)[i], sponsor, protege)
      ensures LiveVouches(links, sponsor) + LivePair(old(links), sponsor, protege) == LiveVouches(old(links), sponsor)
      ensures LivePair(links, sponsor, protege) == 0 && forall x | x != sponsor :: LiveVouches(links, x) == LiveVouches(old(links), x)
    {
      graduated := false;
      ghost var before := links;
      for i := 0 to |links|
        invariant SameEnds(links, before)
        invariant forall j | i <= j < |links| :: links[j] == before[j]
        invariant forall j | 0 <= j < i :: links[j].live == (before[j].live && !Releases(before[j], sponsor, protege))
        invariant graduated <==> exists j :: 0 <= j < i && Releases(before[j], sponsor, protege)
      {
        if Releases(links[i], sponsor, protege) {
          links := links[i := links[i].(live := false)];
          graduated := true;
        }
      }
      forall x ensures LiveVouches(links, x) + (if x == sponsor then LivePair(before, sponsor, protege) else 0) == LiveVouches(before, x) {
        QuotaFreed(before, links, sponsor, protege, x);
      }
      QuotaFreed(before, links, sponsor, protege, sponsor);
    }
  }

  /** Live links of one sponsor to one protege. */
  function LivePair(links: seq<Sponsorship>, sponsor: Agent, protege: Agent): nat {
    if links == [] then 0
    else LivePair(links[..|links| - 1], sponsor, protege) + if Releases(links[|links| - 1], sponsor, protege) then 1 else 0
  }

  /** Graduating gives back exactly the places the pair took of the sponsor's quota, and nobody else's. */
  lemma {:induction false} QuotaFreed(before: seq<Sponsorship>, after: seq<Sponsorship>, sponsor: Agent, protege: Agent, x: Agent)
    requires SameEnds(after, before)
    requires forall i | 0 <= i < |after| :: after[i].live == (before[i].live && !Releases(before[i], sponsor, protege))
    ensures LiveVouches(after, x) + (if x == sponsor then LivePair(before, sponsor, protege) else 0) == LiveVouches(before, x)
    ensures LivePair(after, sponsor, protege) == 0
  {
    if before != [] {
      var n := |before| - 1;
      QuotaFreed(before[..n], after[..n], sponsor, protege, x);
    }
  }

  // ---------------------------------------------------------------- what the cascade charges

  type Known = set<Agent>

  /** The fraction of a charge that falls on each sponsor. */
  function PassedOn(amount: real, f: real): real { amount * f }

  /** What `x` owes when `agent` is charged `amount` with `levels` levels of liability to go. */
  function Dues(links: seq<Sponsorship>, known: Known, f: real, agent: Agent, amount: real, levels: nat, x: Agent): real
    decreases levels, 0
  {
    if amount <= 0.0 || levels == 0 || agent !in known then 0.0
    else
      (if x == agent then amount else 0.0) +
      DuesOf(links, known, f, SponsorsOf(links, agent), PassedOn(amount, f), levels - 1, x)
  }

  function DuesOf(links: seq<Sponsorship>, known: Known, f: real, agents: seq<Agent>, amount: real, levels: nat, x: Agent): real
    decreases levels, |agents| + 1
  {
    if agents == [] then 0.0
    else
      DuesOf(links, known, f, agents[..|agents| - 1], amount, levels, x) +
      Dues(links, known, f, agents[|agents| - 1], amount, levels, x)
  }

  lemma {:induction false} DuesNonNegative(
    links: seq<Sponsorship>, known: Known, f: real, agent: Agent, amount: real, levels: nat, x: Agent
  )
    ensures Dues(links, known, f, agent, amount, levels, x) >= 0.0
    decreases levels, 0
  {
    if amount > 0.0 && levels > 0 && agent in known {
      DuesOfNonNegative(links, known, f, SponsorsOf(links, agent), PassedOn(amount, f), levels - 1, x);
    }
  }

  lemma {:induction false} DuesOfNonNegative(
    links: seq<Sponsorship>, known: Known, f: real, agents: seq<Agent>, amount: real, levels: nat, x: Agent
  )
    ensures DuesOf(links, known, f, agents, amount, levels, x) >= 0.0
    decreases levels, |agents| + 1
  {
    if agents != [] {
      DuesOfNonNegative(links, known, f, agents[..|agents| - 1], amount, levels, x);
      DuesNonNegative(links, known, f, agents[|agents| - 1], amount, levels, x);
    }
  }

  /** A charge takes what there is, down to zero. */
  function Settle(r: real, due: real): real {
    if due <= 0.0 then r else if r > due then r - due else 0.0
  }

  lemma SettleTwice(r: real, a: real, b: real)
    requires a >= 0.0 && b >= 0.0
    ensures Settle(Settle(r, a), b) == Settle(r, a + b)
  {}

  // ---------------------------------------------------------------- the cascade

  ghost predicate Settled(
    before: map<Agent, real>, after: map<Agent, real>, links: seq<Sponsorship>, f: real, agent: Agent, amount: real, levels: nat
  ) {
    && after.Keys == before.Keys
    && forall x | x in before :: after[x] == Settle(before[x], Dues(links, before.Keys, f, agent, amount, levels, x))
  }

  ghost predicate SettledOf(
    before: map<Agent, real>, after: map<Agent, real>, links: seq<Sponsorship>, f: real, agents: seq<Agent>, amount: real, levels: nat
  ) {
    && after.Keys == before.Keys
    && forall x | x in before :: after[x] == Settle(before[x], DuesOf(links, before.Keys, f, agents, amount, levels, x))
  }

  class Cascade {
    var updated: map<Agent, real>
    const links: seq<Sponsorship>
    const f: real

    constructor (reputation: map<Agent, real>, links: seq<Sponsorship>, f: real)
      ensures updated == reputation && this.links == links && this.f == f
    {
      updated := reputation;
      this.links := links;
      this.f := f;
    }

    /** Charges an agent, and a fraction of the charge to each of its sponsors in turn. */
    method Apply(agent: Agent, amount: real, levels: nat)
      modifies this
      ensures Settled(old(updated), updated, links, f, agent, amount, levels)
      decreases levels
    {
      if amount <= 0.0 || levels == 0 || agent !in updated { return; }
      ghost var before := updated;
      updated := updated[agent := Settle(updated[agent], amount)];
      ghost var charged := updated;
      var passesOn := PassedOn(amount, f);
      var sponsors := SponsorsOf(links, agent);
      for i := 0 to |sponsors|
        invariant SettledOf(charged, updated, links, f, sponsors[..i], passesOn, levels - 1)
      {
        ghost var mid := updated;
        Apply(sponsors[i], passesOn, levels - 1);
        OneMoreSponsor(charged, mid, updated, links, f, sponsors, i, passesOn, levels - 1);
      }
      assert sponsors[..|sponsors|] == sponsors;
      ChargedThenSponsors(before, charged, updated, links, f, agent, amount, levels, passesOn);
    }
  }

  lemma OneMoreSponsor(
    start: map<Agent, real>, mid: map<Agent, real>, end: map<Agent, real>, links: seq<Sponsorship>, f: real,
    sponsors: seq<Agent>, i: nat, amount: real, levels: nat
  )
    requires i < |sponsors|
    requires SettledOf(start, mid, links, f, sponsors[..i], amount, levels)
    requires Settled(mid, end, links, f, sponsors[i], amount, levels)
    ensures SettledOf(start, end, links, f, sponsors[..i + 1], amount, levels)
  {
    assert sponsors[..i + 1][..i] == sponsors[..i];
    var known := start.Keys;
    forall x | x in start ensures end[x] == Settle(start[x], DuesOf(links, known, f, sponsors[..i + 1], amount, levels, x)) {
      DuesOfNonNegative(links, known, f, sponsors[..i], amount, levels, x);
      DuesNonNegative(links, known, f, sponsors[i], amount, levels, x);
      SettleTwice(start[x], DuesOf(links, known, f, sponsors[..i], amount, levels, x), Dues(links, known, f, sponsors[i], amount, levels, x));
    }
  }

  lemma ChargedThenSponsors(
    before: map<Agent, real>, charged: map<Agent, real>, after: map<Agent, real>, links: seq<Sponsorship>, f: real,
    agent: Agent, amount: real, levels: nat, passesOn: real
  )
    requires amount > 0.0 && levels > 0 && agent in before && passesOn == PassedOn(amount, f)
    requires charged == before[agent := Settle(before[agent], amount)]
    requires SettledOf(charged, after, links, f, SponsorsOf(links, agent), passesOn, levels - 1)
    ensures Settled(before, after, links, f, agent, amount, levels)
  {
    var known := before.Keys;
    assert charged.Keys == known;
    forall x | x in before ensures after[x] == Settle(before[x], Dues(links, known, f, agent, amount, levels, x)) {
      var own := if x == agent then amount else 0.0;
      var passed := DuesOf(links, known, f, SponsorsOf(links, agent), passesOn, levels - 1, x);
      DuesOfNonNegative(links, known, f, SponsorsOf(links, agent), passesOn, levels - 1, x);
      SettleTwice(before[x], own, passed);
      assert charged[x] == Settle(before[x], own);
      assert Dues(links, known, f, agent, amount, levels, x) == own + passed;
    }
  }

  /** Slashing for proven fraud: a new set of reputations, the input unchanged. A negative depth
      charges no one. */
  method CascadeSlashing(reputation: map<Agent, real>, links: seq<Sponsorship>, culprit: Agent, loss: real, f: real, depth: int)
    returns (updated: map<Agent, real>)
    ensures Settled(reputation, updated, links, f, culprit, loss, if depth < 0 then 0 else depth + 1)
  {
    var cascade := new Cascade(reputation, links, f);
    cascade.Apply(culprit, loss, if depth < 0 then 0 else depth + 1);
    updated := cascade.updated;
  }

  // ---------------------------------------------------------------- the closed form

  /** Sponsor-link walks of exactly `length` steps from `agent` up to `x`, through known agents. */
  function Walks(links: seq<Sponsorship>, known: Known, agent: Agent, x: Agent, length: nat): nat
    decreases length, 0
  {
    if agent !in known then 0
    else if length == 0 then (if x == agent then 1 else 0)
    else WalksOf(links, known, SponsorsOf(links, agent), x, length - 1)
  }

  function WalksOf(links: seq<Sponsorship>, known: Known, agents: seq<Agent>, x: Agent, length: nat): nat
    decreases length, |agents| + 1
  {
    if agents == [] then 0
    else
      WalksOf(links, known, agents[..|agents| - 1], x, length) + Walks(links, known, agents[|agents| - 1], x, length)
  }

  function Term(f: real, n: nat, walks: nat): real { Power(f, n) * walks as real }

  function Times(a: real, b: real): real { a * b }

  lemma TermSplits(f: real, n: nat, w: nat, v: nat)
    ensures Term(f, n, w + v) == Term(f, n, w) + Term(f, n, v)
  {
    Distributes(Power(f, n), w as real, v as real);
  }

  lemma TermStep(f: real, n: nat, w: nat, sum: real)
    ensures Times(f, sum + Term(f, n, w)) == Times(f, sum) + Term(f, n + 1, w)
  {
    PowerStep(f, Power(f, n), w as real, sum);
  }

  /** The sum of `f^i` over the walks of each length `i < levels`. */
  function WalkSum(links: seq<Sponsorship>, known: Known, f: real, agent: Agent, x: Agent, levels: nat): real {
    if levels == 0 then 0.0
    else WalkSum(links, known, f, agent, x, levels - 1) + Term(f, levels - 1, Walks(links, known, agent, x, levels - 1))
  }

  function WalkSumOf(links: seq<Sponsorship>, known: Known, f: real, agents: seq<Agent>, x: Agent, levels: nat): real {
    if levels == 0 then 0.0
    else WalkSumOf(links, known, f, agents, x, levels - 1) + Term(f, levels - 1, WalksOf(links, known, agents, x, levels - 1))
  }

  lemma {:induction false} WalkSumSplits(links: seq<Sponsorship>, known: Known, f: real, agents: seq<Agent>, x: Agent, levels: nat)
    requires agents != []
    ensures WalkSumOf(links, known, f, agents, x, levels) ==
            WalkSumOf(links, known, f, agents[..|agents| - 1], x, levels) + WalkSum(links, known, f, agents[|agents| - 1], x, levels)
  {
    if levels > 0 {
      hide Term;
      WalkSumSplits(links, known, f, agents, x, levels - 1);
      var w, v := WalksOf(links, known, agents[..|agents| - 1], x, levels - 1), Walks(links, known, agents[|agents| - 1], x, levels - 1);
      TermSplits(f, levels - 1, w, v);
    }
  }

  lemma {:induction false} NoAgentsNoWalks(links: seq<Sponsorship>, known: Known, f: real, x: Agent, levels: nat)
    ensures WalkSumOf(links, known, f, [], x, levels) == 0.0
  {
    if levels > 0 { NoAgentsNoWalks(links, known, f, x, levels - 1); }
  }

  /** One step up multiplies by the fraction once. */
  lemma {:induction false} WalkSumStep(links: seq<Sponsorship>, known: Known, f: real, agent: Agent, x: Agent, levels: nat)
    requires agent in known && levels > 0
    ensures WalkSum(links, known, f, agent, x, levels) ==
            (if x == agent then 1.0 else 0.0) + Times(f, WalkSumOf(links, known, f, SponsorsOf(links, agent), x, levels - 1))
  {
    var up := SponsorsOf(links, agent);
    if levels == 1 {
      assert WalkSum(links, known, f, agent, x, 0) == 0.0;
      assert Power(f, 0) == 1.0 && WalkSumOf(links, known, f, up, x, 0) == 0.0;
    } else {
      hide Times, Term, SponsorsOf;
      var n := levels - 1;
      WalkSumStep(links, known, f, agent, x, n);
      TermStep(f, n - 1, WalksOf(links, known, up, x, n - 1), WalkSumOf(links, known, f, up, x, n - 1));
    }
  }

  lemma PowerStep(f: real, p: real, w: real, sum: real)
    ensures f * (sum + p * w) == f * sum + (f * p) * w
  {}

  lemma {:induction false} WalkSumUnknown(links: seq<Sponsorship>, known: Known, f: real, agent: Agent, x: Agent, levels: nat)
    requires agent !in known || levels == 0
    ensures WalkSum(links, known, f, agent, x, levels) == 0.0
  {
    if levels > 0 { WalkSumUnknown(links, known, f, agent, x, levels - 1); }
  }

  lemma {:induction false} DuesOfNothing(
    links: seq<Sponsorship>, known: Known, f: real, agents: seq<Agent>, amount: real, levels: nat, x: Agent
  )
    requires amount <= 0.0
    ensures DuesOf(links, known, f, agents, amount, levels, x) == 0.0
  {
    if agents != [] { DuesOfNothing(links, known, f, agents[..|agents| - 1], amount, levels, x); }
  }

  lemma DuesStep(links: seq<Sponsorship>, known: Known, f: real, agent: Agent, amount: real, levels: nat, x: Agent)
    requires amount > 0.0 && levels > 0 && agent in known
    ensures Dues(links, known, f, agent, amount, levels, x) ==
            (if x == agent then amount else 0.0) + DuesOf(links, known, f, SponsorsOf(links, agent), PassedOn(amount, f), levels - 1, x)
  {}

  /** What is owed is the loss times the weighted number of walks. */
  lemma {:induction false} DuesClosedForm(
    links: seq<Sponsorship>, known: Known, f: real, agent: Agent, amount: real, levels: nat, x: Agent
  )
    requires amount > 0.0 && f >= 0.0
    ensures Dues(links, known, f, agent, amount, levels, x) == Times(amount, WalkSum(links, known, f, agent, x, levels))
    decreases levels, 0
  {
    if levels > 0 && agent in known {
      hide PassedOn, Dues, WalkSum, WalkSumOf, Times;
      DuesStep(links, known, f, agent, amount, levels, x);
      var sum := WalkSumOf(links, known, f, SponsorsOf(links, agent), x, levels - 1);
      WalkSumStep(links, known, f, agent, x, levels);
      PassedClosedForm(links, known, f, SponsorsOf(links, agent), amount, levels, x);
      OwnAndPassed(amount, f, x == agent, sum, WalkSum(links, known, f, agent, x, levels));
    } else {
      WalkSumUnknown(links, known, f, agent, x, levels);
    }
  }

  lemma PassedClosedForm(
    links: seq<Sponsorship>, known: Known, f: real, up: seq<Agent>, amount: real, levels: nat, x: Agent
  )
    requires amount > 0.0 && f >= 0.0 && levels > 0
    ensures DuesOf(links, known, f, up, PassedOn(amount, f), levels - 1, x) ==
            Times(PassedOn(amount, f), WalkSumOf(links, known, f, up, x, levels - 1))
    decreases levels - 1, |up| + 2
  {
    if f > 0.0 {
      ProductPositive(amount, f);
      DuesOfClosedForm(links, known, f, up, PassedOn(amount, f), levels - 1, x);
    } else {
      DuesOfNothing(links, known, f, up, PassedOn(amount, f), levels - 1, x);
    }
  }

  lemma ProductPositive(a: real, b: real)
    requires a > 0.0 && b > 0.0
    ensures PassedOn(a, b) > 0.0
  {}

  lemma OwnAndPassed(amount: real, f: real, own: bool, sum: real, total: real)
    requires total == (if own then 1.0 else 0.0) + Times(f, sum)
    ensures Times(amount, total) == (if own then amount else 0.0) + Times(PassedOn(amount, f), sum)
  {
    Distributes(amount, if own then 1.0 else 0.0, f * sum);
    assert amount * (f * sum) == PassedOn(amount, f) * sum;
  }

  lemma TimesAdds(c: real, x: real, y: real)
    ensures Times(c, x + y) == Times(c, x) + Times(c, y)
  {}

  lemma {:induction false} DuesOfClosedForm(
    links: seq<Sponsorship>, known: Known, f: real, agents: seq<Agent>, amount: real, levels: nat, x: Agent
  )
    requires amount > 0.0 && f >= 0.0
    ensures DuesOf(links, known, f, agents, amount, levels, x) == Times(amount, WalkSumOf(links, known, f, agents, x, levels))
    decreases levels, |agents| + 1
  {
    if agents == [] {
      NoAgentsNoWalks(links, known, f, x, levels);
    } else {
      hide Times, WalkSum, WalkSumOf;
      var n := |agents| - 1;
      DuesOfClosedForm(links, known, f, agents[..n], amount, levels, x);
      DuesClosedForm(links, known, f, agents[n], amount, levels, x);
      WalkSumSplits(links, known, f, agents, x, levels);
      TimesAdds(amount, WalkSumOf(links, known, f, agents[..n], x, levels), WalkSum(links, known, f, agents[n], x, levels));
    }
  }

  lemma {:induction false} NegativeFraction(
    links: seq<Sponsorship>, known: Known, f: real, agent: Agent, amount: real, levels: nat, x: Agent
  )
    requires f <= 0.0
    ensures Dues(links, known, f, agent, amount, levels, x) == Dues(links, known, 0.0, agent, amount, levels, x)
  {
    if amount > 0.0 && levels > 0 {
      var up := SponsorsOf(links, agent);
      assert PassedOn(amount, 0.0) == 0.0;
      ProductNegative(amount, f);
      DuesOfNothing(links, known, f, up, PassedOn(amount, f), levels - 1, x);
      DuesOfNothing(links, known, 0.0, up, PassedOn(amount, 0.0), levels - 1, x);
    }
  }

  lemma ProductNegative(a: real, b: real)
    requires a > 0.0 && b <= 0.0
    ensures PassedOn(a, b) <= 0.0
  {}

  /** The cascade in one formula: starting from non-negative reputations every agent ends at what it
      had less the loss times the sum, over the sponsor-link walks from the culprit to it of length at
      most `depth`, of the fraction to the power of the length, but never below zero. Cycles in the
      sponsorship graph are walked as often as they fit. */
  lemma CascadeClosedForm(
    before: map<Agent, real>, after: map<Agent, real>, links: seq<Sponsorship>, f: real, culprit: Agent, loss: real, levels: nat, x: Agent
  )
    requires Settled(before, after, links, f, culprit, loss, levels) && x in before && before[x] >= 0.0
    ensures after[x] == Max0(before[x] - Times(Max0(loss), WalkSum(links, before.Keys, Max0(f), culprit, x, levels)))
  {
    var known := before.Keys;
    if f < 0.0 { NegativeFraction(links, known, f, culprit, loss, levels, x); }
    if loss > 0.0 {
      DuesClosedForm(links, known, Max0(f), culprit, loss, levels, x);
      DuesNonNegative(links, known, Max0(f), culprit, loss, levels, x);
    }
  }

  lemma {:induction false} NoWalksNoSum(links: seq<Sponsorship>, known: Known, f: real, agent: Agent, x: Agent, levels: nat)
    requires forall i: nat | i < levels :: Walks(links, known, agent, x, i) == 0
    ensures WalkSum(links, known, f, agent, x, levels) == 0.0
  {
    if levels > 0 { NoWalksNoSum(links, known, f, agent, x, levels - 1); }
  }

  lemma {:induction false} PowerPositive(f: real, n: nat)
    requires f > 0.0
    ensures Power(f, n) > 0.0
  {
    if n > 0 { PowerPositive(f, n - 1); }
  }

  lemma TermSign(f: real, n: nat, walks: nat)
    requires f > 0.0
    ensures Term(f, n, walks) >= 0.0
    ensures walks > 0 ==> Term(f, n, walks) > 0.0
  {
    PowerPositive(f, n);
  }

  lemma {:induction false} WalkSumNonNegative(links: seq<Sponsorship>, known: Known, f: real, agent: Agent, x: Agent, levels: nat)
    requires f > 0.0
    ensures WalkSum(links, known, f, agent, x, levels) >= 0.0
  {
    if levels > 0 {
      WalkSumNonNegative(links, known, f, agent, x, levels - 1);
      TermSign(f, levels - 1, Walks(links, known, agent, x, levels - 1));
    }
  }

  lemma {:induction false} SomeWalkSomeSum(links: seq<Sponsorship>, known: Known, f: real, agent: Agent, x: Agent, levels: nat, i: nat)
    requires f > 0.0 && i < levels && Walks(links, known, agent, x, i) > 0
    ensures WalkSum(links, known, f, agent, x, levels) > 0.0
  {
    var w := Walks(links, known, agent, x, levels - 1);
    TermSign(f, levels - 1, w);
    WalkSumNonNegative(links, known, f, agent, x, levels - 1);
    if i < levels - 1 { SomeWalkSomeSum(links, known, f, agent, x, levels - 1, i); }
  }

  /** Exactly the agents that some sponsor walk of at most `depth` links leads to are charged. */
  lemma ReachedExactlyByWalks(
    links: seq<Sponsorship>, known: Known, f: real, culprit: Agent, loss: real, levels: nat, x: Agent
  )
    requires loss > 0.0 && f > 0.0
    ensures Dues(links, known, f, culprit, loss, levels, x) > 0.0 <==>
            exists i: nat :: i < levels && Walks(links, known, culprit, x, i) > 0
  {
    DuesClosedForm(links, known, f, culprit, loss, levels, x);
    var sum := WalkSum(links, known, f, culprit, x, levels);
    WalkSumNonNegative(links, known, f, culprit, x, levels);
    if i: nat :| i < levels && Walks(links, known, culprit, x, i) > 0 {
      SomeWalkSomeSum(links, known, f, culprit, x, levels, i);
    } else {
      NoWalksNoSum(links, known, f, culprit, x, levels);
    }
    TimesSign(loss, sum);
  }

  lemma TimesSign(a: real, b: real)
    requires a > 0.0 && b >= 0.0
    ensures Times(a, b) > 0.0 <==> b > 0.0
  {}

  // ---------------------------------------------------------------- what the charge does not depend on

  ghost predicate SameSponsors(a: seq<Sponsorship>, b: seq<Sponsorship>) {
    forall p :: multiset(SponsorsOf(a, p)) == multiset(SponsorsOf(b, p))
  }

  lemma {:induction false} SponsorCount(links: seq<Sponsorship>, p: Agent, q: Agent)
    ensures multiset(SponsorsOf(links, p))[q] ==
            multiset(links)[Sponsorship(q, p, true)] + multiset(links)[Sponsorship(q, p, false)]
  {
    if links != [] {
      var n := |links| - 1;
      SponsorCount(links[..n], p, q);
      assert links == links[..n] + [links[n]];
      assert multiset(links) == multiset(links[..n]) + multiset{links[n]};
      assert multiset(SponsorsOf(links, p)) == multiset(SponsorsOf(links[..n], p)) +
        if links[n].protege == p then multiset{links[n].sponsor} else multiset{};
    }
  }

  lemma OrderKeepsSponsors(a: seq<Sponsorship>, b: seq<Sponsorship>)
    requires multiset(a) == multiset(b)
    ensures SameSponsors(a, b)
  {
    forall p ensures multiset(SponsorsOf(a, p)) == multiset(SponsorsOf(b, p)) {
      forall q ensures multiset(SponsorsOf(a, p))[q] == multiset(SponsorsOf(b, p))[q] {
        SponsorCount(a, p, q);
        SponsorCount(b, p, q);
      }
    }
  }

  lemma {:induction false} EndsKeepSponsors(a: seq<Sponsorship>, b: seq<Sponsorship>, p: Agent)
    requires SameEnds(a, b)
    ensures SponsorsOf(a, p) == SponsorsOf(b, p)
  {
    if a != [] {
      assert SameEnds(a[..|a| - 1], b[..|a| - 1]);
      EndsKeepSponsors(a[..|a| - 1], b[..|a| - 1], p);
    }
  }

  lemma {:induction false} TakeOut(links: seq<Sponsorship>, known: Known, f: real, agents: seq<Agent>, k: nat, amount: real, levels: nat, x: Agent)
    requires k < |agents|
    ensures DuesOf(links, known, f, agents, amount, levels, x) ==
            DuesOf(links, known, f, agents[..k] + agents[k + 1..], amount, levels, x) + Dues(links, known, f, agents[k], amount, levels, x)
    decreases |agents|
  {
    var n := |agents| - 1;
    if k < n {
      TakeOut(links, known, f, agents[..n], k, amount, levels, x);
      var rest, shorter := agents[..k] + agents[k + 1..], agents[..n][..k] + agents[..n][k + 1..];
      assert rest[..|rest| - 1] == shorter && rest[|rest| - 1] == agents[n];
    } else {
      assert agents[..k] + agents[k + 1..] == agents[..n];
    }
  }

  lemma {:induction false} DuesOfPermuted(
    links: seq<Sponsorship>, known: Known, f: real, s: seq<Agent>, t: seq<Agent>, amount: real, levels: nat, x: Agent
  )
    requires multiset(s) == multiset(t)
    ensures DuesOf(links, known, f, s, amount, levels, x) == DuesOf(links, known, f, t, amount, levels, x)
    decreases |s|
  {
    assert |s| == |multiset(s)| == |multiset(t)| == |t|;
    if s != [] {
      var n := |s| - 1;
      assert s[n] in multiset(t);
      var k: nat :| k < |t| && t[k] == s[n];
      var rest := t[..k] + t[k + 1..];
      assert t == t[..k] + [t[k]] + t[k + 1..];
      assert s == s[..n] + [s[n]];
      assert multiset(s) == multiset(s[..n]) + multiset{s[n]};
      assert multiset(t) == multiset(rest) + multiset{t[k]};
      assert multiset(s[..n]) == multiset(s) - multiset{s[n]};
      assert multiset(rest) == multiset(t) - multiset{t[k]};
      DuesOfPermuted(links, known, f, s[..n], rest, amount, levels, x);
      TakeOut(links, known, f, t, k, amount, levels, x);
    }
  }

  lemma {:induction false} DuesSame(
    a: seq<Sponsorship>, b: seq<Sponsorship>, known: Known, f: real, agent: Agent, amount: real, levels: nat, x: Agent
  )
    requires SameSponsors(a, b)
    ensures Dues(a, known, f, agent, amount, levels, x) == Dues(b, known, f, agent, amount, levels, x)
    decreases levels, 0
  {
    if amount > 0.0 && levels > 0 && agent in known {
      var s, t, passed := SponsorsOf(a, agent), SponsorsOf(b, agent), PassedOn(amount, f);
      DuesOfSame(a, b, known, f, s, passed, levels - 1, x);
      DuesOfPermuted(b, known, f, s, t, passed, levels - 1, x);
    }
  }

  lemma {:induction false} DuesOfSame(
    a: seq<Sponsorship>, b: seq<Sponsorship>, known: Known, f: real, agents: seq<Agent>, amount: real, levels: nat, x: Agent
  )
    requires SameSponsors(a, b)
    ensures DuesOf(a, known, f, agents, amount, levels, x) == DuesOf(b, known, f, agents, amount, levels, x)
    decreases levels, |agents| + 1
  {
    if agents != [] {
      DuesOfSame(a, b, known, f, agents[..|agents| - 1], amount, levels, x);
      DuesSame(a, b, known, f, agents[|agents| - 1], amount, levels, x);
    }
  }

  /** Neither the order in which the links were made nor whether they have graduated changes what
      anyone is charged: liability outlives the live link. */
  lemma LiabilityPersists(
    before: map<Agent, real>, after: map<Agent, real>, a: seq<Sponsorship>, b: seq<Sponsorship>, f: real,
    culprit: Agent, loss: real, levels: nat
  )
    requires multiset(a) == multiset(b) || SameEnds(a, b)
    ensures Settled(before, after, a, f, culprit, loss, levels) <==> Settled(before, after, b, f, culprit, loss, levels)
  {
    if multiset(a) == multiset(b) {
      OrderKeepsSponsors(a, b);
    } else {
      forall p ensures SponsorsOf(a, p) == SponsorsOf(b, p) { EndsKeepSponsors(a, b, p); }
    }
    forall x ensures Dues(a, before.Keys, f, culprit, loss, levels, x) == Dues(b, before.Keys, f, culprit, loss, levels, x) {
      DuesSame(a, b, before.Keys, f, culprit, loss, levels, x);
    }
  }
}
