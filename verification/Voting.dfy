/** The Snowball decision rule, in its two forms: the binary `SnowballNode` and the per-height
    `FinalityRound` over block hashes, with what a whole history of rounds does to either. */
module Voting {
  import opened Bytes

  type Hash = Digest

  datatype Params = Params(k: nat, alpha: nat, beta: nat, maxRounds: nat)

  /** What a voter remembers: the colour it prefers, for how many rounds in a row it was confirmed,
      and the colour it has made final. */
  datatype Ballot<C> = Ballot(pref: C, streak: nat, decision: Option<C>)

  /** One round, as the rule sees it: the leading colour with its count, and the quorum flag. */
  datatype Round<C> = Round(lead: Option<(C, nat)>, params: Params, quorum: bool)

  function Confirmed<C>(r: Round<C>): Option<C> {
    if r.lead.Some? && r.lead.value.1 >= r.params.alpha then Some(r.lead.value.0) else None
  }

  function Advance<C(==)>(s: Ballot<C>, r: Round<C>): Ballot<C> {
    if s.decision.Some? then s
    else match Confirmed(r)
      case None => s.(streak := 0)
      case Some(c) =>
        var streak := if c == s.pref then s.streak + 1 else 1;
        Ballot(c, streak, if streak >= r.params.beta && r.quorum then Some(c) else None)
  }

  // ---------------------------------------------------------------- tallies

  /** `g` does not beat `h` in the tally: fewer votes, or as many and not the larger hash. */
  predicate Behind(tally: multiset<Hash>, g: Hash, h: Hash) {
    tally[g] < tally[h] || (tally[g] == tally[h] && LexLe(g, h))
  }

  lemma BehindTotal(tally: multiset<Hash>, g: Hash, h: Hash)
    ensures Behind(tally, g, h) || Behind(tally, h, g)
  {
    LexTotal(g, h);
  }

  lemma BehindTransitive(tally: multiset<Hash>, f: Hash, g: Hash, h: Hash)
    requires Behind(tally, f, g) && Behind(tally, g, h)
    ensures Behind(tally, f, h)
  {
    if tally[f] == tally[g] == tally[h] { LexTransitive(f, g, h); }
  }

  ghost predicate Leads(votes: seq<Hash>, h: Hash) {
    h in votes && forall g | g in votes :: Behind(multiset(votes), g, h)
  }

  lemma LeaderUnique(votes: seq<Hash>, g: Hash, h: Hash)
    requires Leads(votes, g) && Leads(votes, h)
    ensures g == h
  {
    LexAntisymmetric(g, h);
  }

  lemma {:induction false} LeaderExists(tally: multiset<Hash>, among: set<Hash>)
    requires among != {}
    ensures exists h :: h in among && forall g | g in among :: Behind(tally, g, h)
    decreases |among|
  {
    var x :| x in among;
    var rest := among - {x};
    BehindTotal(tally, x, x);
    if rest == {} {
      assert among == {x};
    } else {
      LeaderExists(tally, rest);
      var h :| h in rest && forall g | g in rest :: Behind(tally, g, h);
      BehindTotal(tally, x, h);
      if Behind(tally, x, h) {
        forall g | g in among ensures Behind(tally, g, h) { assert g == x || g in rest; }
      } else {
        forall g | g in among ensures Behind(tally, g, x) {
          if g != x { assert g in rest; BehindTransitive(tally, g, h, x); }
        }
      }
    }
  }

  ghost function LeadingOf(votes: seq<Hash>): (lead: Option<(Hash, nat)>)
    ensures lead.None? <==> votes == []
    ensures lead.Some? ==> Leads(votes, lead.value.0) && lead.value.1 == multiset(votes)[lead.value.0]
  {
    if votes == [] then None
    else
      var among := set h | h in votes;
      assert votes[0] in among;
      LeaderExists(multiset(votes), among);
      var h :| h in among && forall g | g in among :: Behind(multiset(votes), g, h);
      assert forall g | g in votes :: g in among;
      Some((h, multiset(votes)[h]))
  }

  method CountVotes(votes: seq<Hash>) returns (counts: map<ByteString, nat>)
    ensures forall h :: h in counts <==> h in votes
    ensures forall h: Hash | h in counts :: counts[h] == multiset(votes)[h]
  {
    counts := map[];
    for i := 0 to |votes|
      invariant forall h :: h in counts <==> h in votes[..i]
      invariant forall h: Hash | h in counts :: counts[h] == multiset(votes[..i])[h]
    {
      assert votes[..i + 1] == votes[..i] + [votes[i]];
      var h := votes[i];
      counts := counts[h := (if h in counts then counts[h] else 0) + 1];
    }
    assert votes[..|votes|] == votes;
  }

  /** Behind or equal in a table of counts. */
  predicate NoAhead(counts: map<ByteString, nat>, g: ByteString, h: ByteString)
    requires g in counts && h in counts
  {
    counts[g] < counts[h] || (counts[g] == counts[h] && LexLe(g, h))
  }

  /** The largest count; among equals, the larger hash. */
  method MostVoted(counts: map<ByteString, nat>) returns (best: ByteString)
    requires counts != map[]
    ensures best in counts && forall g | g in counts :: NoAhead(counts, g, best)
  {
    var keys := Ascending(counts.Keys);
    AscendingIsSorted(counts.Keys);
    var some :| some in counts;
    assert some in keys;
    best := keys[0];
    for i := 1 to |keys|
      invariant best in keys
      invariant forall j | 0 <= j < i :: NoAhead(counts, keys[j], best)
    {
      LexReflexive(keys[i]);
      if counts[keys[i]] >= counts[best] { // the later of two equals is the larger hash
        best := keys[i];
      }
    }
    forall g | g in counts ensures NoAhead(counts, g, best) { assert g in keys; }
  }

  /** The round's tally: the most voted hash, ties to the larger hash. */
  method Leading(votes: seq<Hash>) returns (lead: Option<(Hash, nat)>)
    ensures lead == LeadingOf(votes)
  {
    if votes == [] { return None; }
    var counts := CountVotes(votes);
    assert votes[0] in counts;
    var best := MostVoted(counts);
    forall g | g in votes ensures Behind(multiset(votes), g, best) { assert NoAhead(counts, g, best); }
    LeaderUnique(votes, best, LeadingOf(votes).value.0);
    return Some((best, counts[best]));
  }

  // ---------------------------------------------------------------- the two machines

  class FinalityRound {
    var pref: Hash
    var streak: nat
    var decision: Option<Hash>

    ghost function State(): Ballot<Hash> reads this { Ballot(pref, streak, decision) }

    constructor (initial: Hash)
      ensures State() == Ballot(initial, 0, None)
    {
      pref, streak, decision := initial, 0, None;
    }

    method ObserveRound(votes: seq<Hash>, p: Params, reachesQuorum: bool) returns (fired: Option<Hash>)
      modifies this
      ensures State() == Advance(old(State()), Round(LeadingOf(votes), p, reachesQuorum))
      ensures fired == if old(decision).Some? then None else decision
    {
      if decision.Some? { return None; }
      var lead := Leading(votes);
      if lead.Some? && lead.value.1 >= p.alpha {
        var colour := lead.value.0;
        if colour == pref {
          streak := streak + 1;
        } else {
          pref, streak := colour, 1;
        }
        if streak >= p.beta && reachesQuorum {
          decision := Some(colour);
          return decision;
        }
      } else {
        streak := 0;
      }
      return None;
    }
  }

  function Ones(votes: seq<Byte>): nat {
    if votes == [] then 0 else (if votes[|votes| - 1] == 1 then 1 else 0) + Ones(votes[..|votes| - 1])
  }

  function BinaryLead(votes: seq<Byte>): (Byte, nat) {
    OnesAtMostAll(votes);
    if Ones(votes) >= |votes| - Ones(votes) then (1, Ones(votes)) else (0, |votes| - Ones(votes))
  }

  lemma OnesAtMostAll(votes: seq<Byte>)
    ensures Ones(votes) <= |votes|
  {}

  class SnowballNode {
    var pref: Byte
    var streak: nat
    var decision: Option<Byte>

    ghost function State(): Ballot<Byte> reads this { Ballot(pref, streak, decision) }

    constructor (initial: Byte)
      ensures State() == Ballot(initial, 0, None)
    {
      pref, streak, decision := initial, 0, None;
    }

    method ObserveRound(votes: seq<Byte>, p: Params, reachesQuorum: bool) returns (fired: Option<Byte>)
      modifies this
      ensures State() == Advance(old(State()), Round(Some(BinaryLead(votes)), p, reachesQuorum))
      ensures fired == if old(decision).Some? then None else decision
    {
      if decision.Some? { return None; }
      OnesAtMostAll(votes);
      var ones := Ones(votes);
      var zeros := |votes| - ones;
      var colour: Byte, count := 0, zeros;
      if ones >= zeros { colour, count := 1, ones; }
      if count >= p.alpha {
        if colour == pref {
          streak := streak + 1;
        } else {
          pref, streak := colour, 1;
        }
        if streak >= p.beta && reachesQuorum {
          decision := Some(colour);
          return decision;
        }
      } else {
        streak := 0;
      }
      return None;
    }
  }

  // ---------------------------------------------------------------- whole histories

  function Replay<C(==)>(initial: C, rounds: seq<Round<C>>): Ballot<C> {
    if rounds == [] then Ballot(initial, 0, None)
    else Advance(Replay(initial, rounds[..|rounds| - 1]), rounds[|rounds| - 1])
  }

  /** The last `length` rounds all confirmed `c`, and the one before them did not. */
  ghost predicate MaximalRun<C>(rounds: seq<Round<C>>, c: C, length: nat) {
    && length <= |rounds|
    && (forall i | |rounds| - length <= i < |rounds| :: Confirmed(rounds[i]) == Some(c))
    && (length < |rounds| ==> Confirmed(rounds[|rounds| - length - 1]) != Some(c))
  }

  function RunLength<C(==)>(rounds: seq<Round<C>>, c: C): (length: nat)
    ensures MaximalRun(rounds, c, length)
  {
    if rounds == [] || Confirmed(rounds[|rounds| - 1]) != Some(c) then 0
    else 1 + RunLength(rounds[..|rounds| - 1], c)
  }

  lemma {:induction false} MaximalRunUnique<C>(rounds: seq<Round<C>>, c: C, length: nat)
    requires MaximalRun(rounds, c, length)
    ensures length == RunLength(rounds, c)
    decreases |rounds|
  {
    if length > 0 {
      assert Confirmed(rounds[|rounds| - 1]) == Some(c);
      MaximalRunUnique(rounds[..|rounds| - 1], c, length - 1);
    }
  }

  ghost predicate NoneConfirmed<C>(rounds: seq<Round<C>>) {
    forall i | 0 <= i < |rounds| :: Confirmed(rounds[i]) == None
  }

  /** `c` is the colour confirmed last, or the initial one if no round confirmed any. */
  ghost predicate LastConfirmed<C>(initial: C, rounds: seq<Round<C>>, c: C) {
    || (c == initial && NoneConfirmed(rounds))
    || (exists i | 0 <= i < |rounds| :: Confirmed(rounds[i]) == Some(c) && NoneConfirmed(rounds[i + 1..]))
  }

  /** Round number `n` ends a run of at least its own `beta` confirmations, with the quorum in sight. */
  ghost predicate Fires<C(!new)>(rounds: seq<Round<C>>, n: nat) {
    && 1 <= n <= |rounds|
    && Confirmed(rounds[n - 1]).Some?
    && rounds[n - 1].quorum
    && RunLength(rounds[..n], Confirmed(rounds[n - 1]).value) >= rounds[n - 1].params.beta
  }

  ghost predicate FiresFirst<C(!new)>(rounds: seq<Round<C>>, n: nat) {
    Fires(rounds, n) && forall m | 1 <= m < n :: !Fires(rounds, m)
  }

  lemma FiresInPrefix<C(!new)>(rounds: seq<Round<C>>, m: nat, n: nat)
    requires n <= m <= |rounds|
    ensures Fires(rounds[..m], n) <==> Fires(rounds, n)
  {
    assert rounds[..m][..n] == rounds[..n];
  }

  /** One more round keeps `pref` and `streak` true to the history of an undecided voter. */
  lemma LastConfirmedExtends<C>(initial: C, before: seq<Round<C>>, r: Round<C>, s: Ballot<C>)
    requires s.decision == None && LastConfirmed(initial, before, s.pref)
    ensures LastConfirmed(initial, before + [r], Advance(s, r).pref)
  {
    var rounds := before + [r];
    match Confirmed(r)
    case None =>
      if i :| 0 <= i < |before| && Confirmed(before[i]) == Some(s.pref) && NoneConfirmed(before[i + 1..]) {
        assert rounds[i + 1..] == before[i + 1..] + [r];
        assert Confirmed(rounds[i]) == Some(s.pref);
      }
    case Some(c) =>
      assert Confirmed(rounds[|before|]) == Some(c) && rounds[|before| + 1..] == [];
  }

  lemma StreakExtends<C>(initial: C, before: seq<Round<C>>, r: Round<C>, s: Ballot<C>)
    requires s.decision == None && LastConfirmed(initial, before, s.pref) && MaximalRun(before, s.pref, s.streak)
    ensures MaximalRun(before + [r], Advance(s, r).pref, Advance(s, r).streak)
  {
    var rounds := before + [r];
    assert forall i | 0 <= i < |before| :: rounds[i] == before[i];
    assert rounds[|before|] == r;
    if before != [] {
      assert Confirmed(before[|before| - 1]) in {None, Some(s.pref)} by {
        if i :| 0 <= i < |before| && Confirmed(before[i]) == Some(s.pref) && NoneConfirmed(before[i + 1..]) {
          assert i < |before| - 1 ==> before[i + 1..][|before| - i - 2] == before[|before| - 1];
        }
      }
    }
  }

  /** Undecided: `pref` is the colour confirmed last and `streak` the length of its maximal run. */
  lemma {:induction false} UndecidedHistory<C(!new)>(initial: C, rounds: seq<Round<C>>)
    requires forall n | 1 <= n <= |rounds| :: !Fires(rounds, n)
    ensures var s := Replay(initial, rounds);
      s.decision == None && LastConfirmed(initial, rounds, s.pref) && MaximalRun(rounds, s.pref, s.streak)
    decreases |rounds|
  {
    if rounds != [] {
      var n := |rounds| - 1;
      var before, r := rounds[..n], rounds[n];
      forall m | 1 <= m <= n ensures !Fires(before, m) { FiresInPrefix(rounds, n, m); }
      UndecidedHistory(initial, before);
      var s, t := Replay(initial, before), Replay(initial, rounds);
      assert rounds == before + [r];
      LastConfirmedExtends(initial, before, r, s);
      StreakExtends(initial, before, r, s);
      MaximalRunUnique(rounds, t.pref, t.streak);
      assert rounds[..|rounds|] == rounds;
      assert !Fires(rounds, |rounds|);
    }
  }

  lemma {:induction false} DecisionLatches<C>(initial: C, rounds: seq<Round<C>>, n: nat)
    requires n <= |rounds| && Replay(initial, rounds[..n]).decision.Some?
    ensures Replay(initial, rounds) == Replay(initial, rounds[..n])
    decreases |rounds|
  {
    if n < |rounds| {
      assert rounds[..|rounds| - 1][..n] == rounds[..n];
      DecisionLatches(initial, rounds[..|rounds| - 1], n);
    } else {
      assert rounds[..n] == rounds;
    }
  }

  /** The first firing round decides the colour it confirmed, and nothing moves afterwards. */
  lemma DecidedHistory<C(!new)>(initial: C, rounds: seq<Round<C>>, n: nat)
    requires FiresFirst(rounds, n)
    ensures var s := Replay(initial, rounds);
      && s.decision == Confirmed(rounds[n - 1]) && s.pref == s.decision.value
      && MaximalRun(rounds[..n], s.pref, s.streak) && s == Replay(initial, rounds[..n])
  {
    var upTo, before := rounds[..n], rounds[..n - 1];
    assert upTo[..n - 1] == before;
    forall m | 1 <= m <= n - 1 ensures !Fires(before, m) { FiresInPrefix(rounds, n - 1, m); }
    UndecidedHistory(initial, before);
    var s := Replay(initial, before);
    var t := Replay(initial, upTo);
    assert upTo == before + [rounds[n - 1]];
    StreakExtends(initial, before, rounds[n - 1], s);
    MaximalRunUnique(upTo, t.pref, t.streak);
    DecisionLatches(initial, rounds, n);
  }

  lemma FirstFiring<C(!new)>(rounds: seq<Round<C>>, n: nat) returns (m: nat)
    requires Fires(rounds, n)
    ensures m <= n && FiresFirst(rounds, m)
  {
    if m' :| 1 <= m' < n && Fires(rounds, m') {
      m := FirstFiring(rounds, m');
    } else {
      m := n;
    }
  }

  /** A height is decided exactly when some round fired; the value is the first firing round's. */
  lemma DecisionCharacterised<C(!new)>(initial: C, rounds: seq<Round<C>>, c: C)
    ensures Replay(initial, rounds).decision == Some(c)
       <==> exists n :: FiresFirst(rounds, n) && Confirmed(rounds[n - 1]) == Some(c)
  {
    if n :| 1 <= n <= |rounds| && Fires(rounds, n) {
      var m := FirstFiring(rounds, n);
      DecidedHistory(initial, rounds, m);
      assert forall m' | FiresFirst(rounds, m') :: m' == m;
    } else {
      UndecidedHistory(initial, rounds);
    }
  }

  // ---------------------------------------------------------------- lockstep of the two machines

  function Paint(a: Hash, b: Hash, colour: Byte): Hash { if colour == 1 then b else a }

  function Painted(a: Hash, b: Hash, votes: seq<Byte>): seq<Hash> {
    seq(|votes|, i requires 0 <= i < |votes| => Paint(a, b, votes[i]))
  }

  ghost function PaintBallot(a: Hash, b: Hash, s: Ballot<Byte>): Ballot<Hash> {
    Ballot(Paint(a, b, s.pref), s.streak, match s.decision case None => None case Some(c) => Some(Paint(a, b, c)))
  }

  predicate Binary(s: Ballot<Byte>) { s.pref < 2 && (s.decision.Some? ==> s.decision.value < 2) }

  lemma {:induction false} PaintedCounts(a: Hash, b: Hash, votes: seq<Byte>)
    requires a != b
    ensures multiset(Painted(a, b, votes))[b] == Ones(votes)
    ensures multiset(Painted(a, b, votes))[a] == |votes| - Ones(votes)
  {
    if votes != [] {
      var n := |votes| - 1;
      PaintedCounts(a, b, votes[..n]);
      assert Painted(a, b, votes) == Painted(a, b, votes[..n]) + [Paint(a, b, votes[n])];
    }
  }

  lemma PaintedLead(a: Hash, b: Hash, votes: seq<Byte>)
    requires a != b && LexLe(a, b) && votes != []
    ensures LeadingOf(Painted(a, b, votes)) == Some((Paint(a, b, BinaryLead(votes).0), BinaryLead(votes).1))
  {
    var painted := Painted(a, b, votes);
    PaintedCounts(a, b, votes);
    OnesAtMostAll(votes);
    assert painted != [];
    var h := LeadingOf(painted).value.0;
    assert forall g | g in painted :: g == a || g == b;
    if LexLe(b, a) { LexAntisymmetric(a, b); }
    assert Ones(votes) > 0 ==> b in painted;
    assert Ones(votes) < |votes| ==> a in painted;
  }

  /** On two hashes the machines take the same step exactly when the node is frozen, some vote
      arrived, or `alpha` is at least 1; an empty round with `alpha == 0` drives them apart. */
  lemma LockstepStep(a: Hash, b: Hash, s: Ballot<Byte>, votes: seq<Byte>, p: Params, quorum: bool)
    requires a != b && LexLe(a, b) && Binary(s)
    ensures PaintBallot(a, b, Advance(s, Round(Some(BinaryLead(votes)), p, quorum)))
         == Advance(PaintBallot(a, b, s), Round(LeadingOf(Painted(a, b, votes)), p, quorum))
       <==> (s.decision.Some? || votes != [] || p.alpha >= 1)
    ensures Binary(Advance(s, Round(Some(BinaryLead(votes)), p, quorum)))
  {
    if votes != [] { PaintedLead(a, b, votes); }
  }

  datatype Poll = Poll(votes: seq<Byte>, params: Params, quorum: bool)

  ghost function AsColours(polls: seq<Poll>): seq<Round<Byte>> {
    seq(|polls|, i requires 0 <= i < |polls| => Round(Some(BinaryLead(polls[i].votes)), polls[i].params, polls[i].quorum))
  }

  ghost function AsHashes(a: Hash, b: Hash, polls: seq<Poll>): seq<Round<Hash>> {
    seq(|polls|, i requires 0 <= i < |polls| =>
      Round(LeadingOf(Painted(a, b, polls[i].votes)), polls[i].params, polls[i].quorum))
  }

  /** Over any history of two-hash rounds with `alpha >= 1`, the finality round is the binary node. */
  lemma {:induction false} Lockstep(a: Hash, b: Hash, initial: Byte, polls: seq<Poll>)
    requires a != b && LexLe(a, b) && initial < 2
    requires forall i | 0 <= i < |polls| :: polls[i].params.alpha >= 1
    ensures Binary(Replay(initial, AsColours(polls)))
    ensures PaintBallot(a, b, Replay(initial, AsColours(polls))) == Replay(Paint(a, b, initial), AsHashes(a, b, polls))
    decreases |polls|
  {
    if polls != [] {
      var n := |polls| - 1;
      Lockstep(a, b, initial, polls[..n]);
      assert AsColours(polls)[..n] == AsColours(polls[..n]);
      assert AsHashes(a, b, polls)[..n] == AsHashes(a, b, polls[..n]);
      LockstepStep(a, b, Replay(initial, AsColours(polls[..n])), polls[n].votes, polls[n].params, polls[n].quorum);
    }
  }
}
