/** Agreement over whole runs: the members of a committee whose chains agree on a block cast their votes, hear each
    other, and each decides it, whatever else goes on in the network. */
module FinalityConvergence {
  import opened Bytes
  import opened Quorum
  import opened Voting
  import opened FinalityProof
  import opened FinalityWorker
  import opened FinalityVote
  import opened FinalityRun
  import opened FinalityLiveness

  /** A block, and the nodes that are to decide it with the keys they sign with. */
  datatype Goal = Goal(height: U32, hash: Digest, keys: map<nat, VoteKey>)

  function AccountOf(s: Setting, goal: Goal, n: nat): ByteString requires n in goal.keys {
    ResolveVoter(goal.keys[n].signer, s.delegationOf(goal.height))
  }

  function Accounts(s: Setting, goal: Goal): set<ByteString> { set n | n in goal.keys :: AccountOf(s, goal, n) }

  /** The nodes vote for a quorum of the height's committee. */
  ghost predicate Quorate(s: Setting, goal: Goal) {
    && (forall n | n in goal.keys :: ValidKey(s, goal.keys[n]) && AccountOf(s, goal, n) in s.committeeOf(goal.height))
    && |Accounts(s, goal)| >= Alpha(|s.committeeOf(goal.height)|)
  }

  /** A worker at the height, undecided, with the epoch's own view; of the nodes' accounts it holds no vote for
      another block. Other accounts may have voted for anything. */
  ghost predicate Open(s: Setting, goal: Goal, w: WorkerState) {
    && w.height == goal.height && Seated(s, w) && w.ballot.decision.None?
    && (forall a | a in w.votes :: w.votes[a].height == goal.height)
    && (forall a | a in w.votes && a in Accounts(s, goal) :: w.votes[a].hash == goal.hash)
  }

  /** Whose votes a worker holds. */
  ghost predicate Holds(w: WorkerState, accounts: set<ByteString>) { accounts <= w.votes.Keys }

  // ---------------------------------------------------------------- counting by account

  function For(votes: map<ByteString, Vote>, order: seq<ByteString>, height: U64, hash: Digest): set<ByteString>
    requires forall a | a in order :: a in votes
  {
    set a | a in order && votes[a].height == height && votes[a].hash == hash
  }

  lemma ForGrows(votes: map<ByteString, Vote>, order: seq<ByteString>, height: U64, hash: Digest)
    requires order != [] && NoDuplicates(order) && forall a | a in order :: a in votes
    ensures var t, a := order[..|order| - 1], order[|order| - 1];
      && NoDuplicates(t) && (forall x | x in t :: x in votes)
      && |For(votes, order, height, hash)| ==
           |For(votes, t, height, hash)| + if votes[a].height == height && votes[a].hash == hash then 1 else 0
  {
    var t, a := order[..|order| - 1], order[|order| - 1];
    assert order == t + [a] && a !in t;
    assert For(votes, order, height, hash) ==
      For(votes, t, height, hash) + if votes[a].height == height && votes[a].hash == hash then {a} else {};
  }

  lemma {:induction false} MatchingPerAccount(order: seq<ByteString>, votes: map<ByteString, Vote>, height: U64, hash: Digest)
    requires NoDuplicates(order) && forall a | a in order :: a in votes
    ensures |Matching(order, votes, height, hash)| == |For(votes, order, height, hash)|
    decreases |order|
  {
    hide For, NoDuplicates;
    if order == [] {
      assert For(votes, order, height, hash) == {} by { NobodyFor(votes, height, hash); }
    } else {
      ForGrows(votes, order, height, hash);
      MatchingPerAccount(order[..|order| - 1], votes, height, hash);
    }
  }

  lemma NobodyFor(votes: map<ByteString, Vote>, height: U64, hash: Digest)
    ensures For(votes, [], height, hash) == {}
  {}

  lemma SelectedPerAccount(votes: map<ByteString, Vote>, height: U64, hash: Digest)
    ensures |Selected(height, hash, votes)| == |set a | a in votes && votes[a].height == height && votes[a].hash == hash|
  {
    var order := Ascending(votes.Keys);
    MatchingPerAccount(order, votes, height, hash);
    assert For(votes, order, height, hash) == set a | a in votes && votes[a].height == height && votes[a].hash == hash;
  }

  lemma AccountsWithin(s: Setting, goal: Goal)
    requires Quorate(s, goal)
    ensures Accounts(s, goal) <= s.committeeOf(goal.height)
  {}

  lemma FewOthers(committee: set<ByteString>, accounts: set<ByteString>, backing: set<ByteString>)
    requires accounts <= committee && |accounts| >= Alpha(|committee|) && backing <= committee - accounts
    ensures |backing| < Alpha(|committee|)
  {
    CardinalityOfSubset(backing, committee - accounts);
    assert committee == (committee - accounts) + accounts;
    assert |committee| == |committee - accounts| + |accounts|;
    OverlapBound(|committee|);
  }

  /** No other block can reach a quorum of the votes of an open worker. */
  lemma NoOtherQuorum(s: Setting, goal: Goal, w: WorkerState, y: Digest)
    requires Quorate(s, goal) && Open(s, goal, w) && w.votes.Keys <= w.committee && y != goal.hash
    ensures |Selected(w.height, y, w.votes)| < Alpha(|w.committee|)
  {
    var backing := set a | a in w.votes && w.votes[a].height == w.height && w.votes[a].hash == y;
    AccountsWithin(s, goal);
    QuorateCounts(s, goal);
    SelectedPerAccount(w.votes, w.height, y);
    hide Quorate, Selected, Alpha, Accounts;
    FewOthers(w.committee, Accounts(s, goal), backing);
  }

  lemma QuorateCounts(s: Setting, goal: Goal)
    requires Quorate(s, goal)
    ensures |Accounts(s, goal)| >= Alpha(|s.committeeOf(goal.height)|)
  {}

  /** With the votes of all the nodes in hand, the block has one. */
  lemma AllCarry(s: Setting, goal: Goal, w: WorkerState)
    requires Quorate(s, goal) && Open(s, goal, w) && w.votes.Keys <= w.committee && Holds(w, Accounts(s, goal))
    ensures Carries(w, goal.hash)
  {
    var backing := set a | a in w.votes && w.votes[a].height == w.height && w.votes[a].hash == goal.hash;
    SelectedPerAccount(w.votes, w.height, goal.hash);
    QuorateCounts(s, goal);
    hide Quorate, Selected, Alpha, Accounts;
    assert Accounts(s, goal) <= backing;
    CardinalityOfSubset(Accounts(s, goal), backing);
  }

  // ---------------------------------------------------------------- a tick of a member

  /** A chain on which the node can vote for the block. */
  ghost predicate Shows(s: Setting, goal: Goal, chain: Chain) requires s.build.cadence.Valid() {
    && Coherent(s, chain) && Serves(s.build, chain, goal.height)
    && goal.height in chain.blocks && chain.blocks[goal.height] == goal.hash
  }

  lemma MemberPrepared(s: Setting, goal: Goal, w: WorkerState, chain: Chain)
    requires s.build.cadence.Valid() && Open(s, goal, w) && Shows(s, goal, chain)
    ensures var now := Refreshed(s.build, w, chain);
      && Prepared(s.build, w, chain) == (now, Some(goal.hash))
      && Open(s, goal, now) && now.ballot == w.ballot && now.votes == Retained(w.votes, s.committeeOf(goal.height))
  {
    PreparedServed(s.build, w, chain);
    PinnedSeesEpoch(s, chain, goal.height);
    hide Prepared, PinnedAt, Coherent, Accounts;
  }

  lemma MemberKeeps(s: Setting, goal: Goal, n: nat, now: WorkerState)
    requires Quorate(s, goal) && n in goal.keys && Open(s, goal, now)
    ensures var v := OwnVote(s.build, now, goal.keys[n], goal.hash);
      KeepVote(now, v) == now.(votes := now.votes[AccountOf(s, goal, n) := v]) && Open(s, goal, KeepVote(now, v))
  {
    hide SignMessage;
  }

  /** What a tick of an undecided member leaves. */
  ghost predicate Progressed(s: Setting, goal: Goal, n: nat, w: WorkerState, o: Outcome) requires n in goal.keys {
    var streak := if w.ballot.pref == goal.hash then w.ballot.streak + 1 else 1;
    && (o.attempt.Some? ==> o.attempt.value.height == goal.height && o.attempt.value.hash == goal.hash)
    && (o.attempt.None? ==>
          && Open(s, goal, o.next)
          && (forall a | a in Accounts(s, goal) && (a in w.votes || a == AccountOf(s, goal, n)) :: a in o.next.votes))
    && (Accounts(s, goal) <= w.votes.Keys + {AccountOf(s, goal, n)} ==>
          if streak >= s.build.cadence.beta then o.attempt.Some? else o.next.ballot.pref == goal.hash && o.next.ballot.streak == streak)
  }

  lemma DecidesTheGoal(s: Setting, goal: Goal, kept: WorkerState)
    requires Quorate(s, goal) && Open(s, goal, kept) && kept.votes.Keys <= kept.committee
    ensures var c := Counted(s.build, kept);
      && c.height == goal.height && c.votes == kept.votes && Seated(s, c)
      && (c.ballot.decision.None? || c.ballot.decision == Some(goal.hash))
  {
    CountedKeeps(s, kept);
    hide Counted, Selected, Quorate, Alpha;
    var c := Counted(s.build, kept);
    if c.ballot.decision.Some? && c.ballot.decision.value != goal.hash { NoOtherQuorum(s, goal, kept, c.ballot.decision.value); }
  }

  lemma MemberCounts(s: Setting, goal: Goal, n: nat, w: WorkerState, kept: WorkerState, o: Outcome)
    requires Quorate(s, goal) && n in goal.keys && Open(s, goal, kept) && kept.votes.Keys <= kept.committee && kept.ballot == w.ballot
    requires forall a | a in Accounts(s, goal) && (a in w.votes || a == AccountOf(s, goal, n)) :: a in kept.votes
    requires o.counted == Counted(s.build, kept) && o.attempt == AttemptOf(o.counted) && (o.attempt.None? ==> o.next == o.counted)
    ensures Progressed(s, goal, n, w, o)
  {
    hide Counted, AccountOf, Accounts, Quorate, Carries, AttemptOf;
    DecidesTheGoal(s, goal, kept);
    AttemptReads(o.counted);
    if Accounts(s, goal) <= w.votes.Keys + {AccountOf(s, goal, n)} {
      AllCarry(s, goal, kept);
      CountConfirms(s.build, kept, goal.hash);
    }
  }

  lemma AttemptReads(w: WorkerState)
    ensures AttemptOf(w).Some? <==> w.ballot.decision.Some?
    ensures AttemptOf(w).Some? ==> AttemptOf(w).value.height == w.height && Some(AttemptOf(w).value.hash) == w.ballot.decision
  {}

  lemma MemberTick(s: Setting, goal: Goal, n: nat, w: WorkerState, chain: Chain, finalizes: bool, after: Chain)
    requires s.build.cadence.Valid() && Quorate(s, goal) && n in goal.keys && Open(s, goal, w) && Shows(s, goal, chain)
    ensures Progressed(s, goal, n, w, TickOf(s.build, w, chain, Some(goal.keys[n]), finalizes, after))
  {
    hide Prepared, Refreshed, Shows, Counted, Progressed, Retarget, AttemptOf, Quorate, OwnVote, KeepVote;
    MemberPrepared(s, goal, w, chain);
    var now := Refreshed(s.build, w, chain);
    MemberKeeps(s, goal, n, now);
    var v := OwnVote(s.build, now, goal.keys[n], goal.hash);
    var kept := KeepVote(now, v);
    KeptAccounts(s, goal, n, w, now, v);
    MemberCounts(s, goal, n, w, kept, TickOf(s.build, w, chain, Some(goal.keys[n]), finalizes, after));
  }

  lemma KeptAccounts(s: Setting, goal: Goal, n: nat, w: WorkerState, now: WorkerState, v: Vote)
    requires Quorate(s, goal) && n in goal.keys && Open(s, goal, now) && now.votes == Retained(w.votes, s.committeeOf(goal.height))
    requires KeepVote(now, v) == now.(votes := now.votes[AccountOf(s, goal, n) := v])
    ensures KeepVote(now, v).votes.Keys <= now.committee
    ensures forall a | a in Accounts(s, goal) && (a in w.votes || a == AccountOf(s, goal, n)) :: a in KeepVote(now, v).votes
  {
    AccountsWithin(s, goal);
    assert AccountOf(s, goal, n) in s.committeeOf(goal.height);
    hide KeepVote, Accounts, AccountOf, Quorate;
  }

  // ---------------------------------------------------------------- a message to a member

  /** A valid vote at the height for one of the accounts. */
  ghost predicate Speaks(s: Setting, goal: Goal, v: Vote) {
    v.height == goal.height && Valid(s)(v) && ResolveVoter(v.signer, s.delegationOf(goal.height)) in Accounts(s, goal)
  }

  /** A message that is no vote of one of the accounts for another block. */
  ghost predicate Harmless(s: Setting, goal: Goal, message: ByteString) {
    DecodeVote(message).Some? && Speaks(s, goal, DecodeVote(message).value) ==> DecodeVote(message).value.hash == goal.hash
  }

  lemma MemberHears(s: Setting, goal: Goal, w: WorkerState, message: ByteString)
    requires Quorate(s, goal) && Open(s, goal, w) && Harmless(s, goal, message)
    ensures var w' := ReceiveOf(s.build, w, message);
      && Open(s, goal, w') && w'.ballot == w.ballot && w.votes.Keys <= w'.votes.Keys
      && (DecodeVote(message).Some? && Speaks(s, goal, DecodeVote(message).value) ==>
            ResolveVoter(DecodeVote(message).value.signer, s.delegationOf(goal.height)) in w'.votes)
  {
    AccountsWithin(s, goal);
    hide DecodeVote, VerifySig, Accounts, Quorate;
  }

  // ---------------------------------------------------------------- steps of the network

  ghost predicate Reached(sys: System, goal: Goal, n: nat) { DecidedBy(sys, n, goal.height, goal.hash) }

  ghost predicate Underway(s: Setting, goal: Goal, n: nat, sys: System) { n in sys.workers && Open(s, goal, sys.workers[n]) }

  /** The member has decided, or is on its way. */
  ghost predicate Alive(s: Setting, goal: Goal, n: nat, sys: System) {
    n in sys.workers && (Reached(sys, goal, n) || Underway(s, goal, n, sys))
  }

  lemma AliveWorks(s: Setting, goal: Goal, n: nat, sys: System)
    requires Alive(s, goal, n, sys)
    ensures n in sys.workers
  {}

  /** What an undecided member does: it ticks on a chain that shows the block, with its own key; what it receives is
      harmless; it does not restart. */
  ghost predicate Steadfast(s: Setting, goal: Goal, sys: System, e: Event) requires s.build.cadence.Valid() {
    match e
    case Tick(n, chain, key, _, _) => n in goal.keys && !Reached(sys, goal, n) ==> key == Some(goal.keys[n]) && Shows(s, goal, chain)
    case Receive(n, message) => n in goal.keys && !Reached(sys, goal, n) ==> Harmless(s, goal, message)
    case Import(_, _, _, _, _, _) => true
    case Restart(n, _) => n in goal.keys ==> Reached(sys, goal, n)
  }

  lemma StaysReached(s: Setting, goal: Goal, n: nat, a: System, e: Event, b: System)
    requires s.build.cadence.Valid() && Moves(s, a, e, b) && Reached(a, goal, n)
    ensures Reached(b, goal, n)
  {
    hide OutcomeOf, VoicesAfter, Reception, ReceiveOf, DecodeVote, Booted, ProofVoices, VotesIn;
    if e.Import? && Reception(s, e.chain, e.number, e.hash, e.proof) == Accepted {
      ReceptionReads(s, e.chain, e.number, e.hash, e.proof);
    }
    assert a.decided <= b.decided;
    hide Step;
  }

  lemma OthersLeave(s: Setting, n: nat, a: System, e: Event, b: System)
    requires s.build.cadence.Valid() && Moves(s, a, e, b) && n in a.workers && (e.Import? || e.node != n)
    ensures n in b.workers && b.workers[n] == a.workers[n]
  {
    hide OutcomeOf, VoicesAfter, Reception, ReceiveOf, DecodeVote, Booted, ProofVoices, VotesIn;
    if e.Import? && Reception(s, e.chain, e.number, e.hash, e.proof) == Accepted {
      ReceptionReads(s, e.chain, e.number, e.hash, e.proof);
    }
  }

  /** One step as member `n` sees it. */
  ghost predicate Stepped(s: Setting, goal: Goal, n: nat, a: System, e: Event, b: System)
    requires n in goal.keys && n in a.workers
  {
    Reached(b, goal, n)
    || (Underway(s, goal, n, b)
        && if e.Tick? && e.node == n
           then exists o: Outcome :: o.attempt.None? && o.next == b.workers[n] && Progressed(s, goal, n, a.workers[n], o)
           else a.workers[n].ballot == b.workers[n].ballot && a.workers[n].votes.Keys <= b.workers[n].votes.Keys)
  }

  lemma TickStepped(s: Setting, goal: Goal, n: nat, a: System, e: Event, b: System)
    requires s.build.cadence.Valid() && Quorate(s, goal) && n in goal.keys && Moves(s, a, e, b)
    requires Underway(s, goal, n, a) && !Reached(a, goal, n) && Steadfast(s, goal, a, e) && e.Tick? && e.node == n
    ensures Stepped(s, goal, n, a, e, b)
  {
    hide Quorate, Progressed, Shows, VoicesAfter, TickOf, Open;
    MemberTick(s, goal, n, a.workers[n], e.chain, e.finalizes, e.after);
    var o := OutcomeOf(s, a, e);
    assert b.workers[n] == o.next;
    if o.attempt.Some? {
      var voices := VoicesAfter(s, s.build, a.workers[n], e.chain, o, VoicesFor(a, n));
      assert Tallied(n, o.attempt.value.height, o.attempt.value.hash, voices) in b.decided;
      ProgressedAttempt(s, goal, n, a.workers[n], o);
    } else {
      ProgressedAttempt(s, goal, n, a.workers[n], o);
    }
  }

  lemma ProgressedAttempt(s: Setting, goal: Goal, n: nat, w: WorkerState, o: Outcome)
    requires n in goal.keys && Progressed(s, goal, n, w, o)
    ensures o.attempt.Some? ==> o.attempt.value.height == goal.height && o.attempt.value.hash == goal.hash
    ensures o.attempt.None? ==> Open(s, goal, o.next)
  {}

  lemma ReceiveStepped(s: Setting, goal: Goal, n: nat, a: System, e: Event, b: System)
    requires s.build.cadence.Valid() && Quorate(s, goal) && n in goal.keys && Moves(s, a, e, b)
    requires Underway(s, goal, n, a) && !Reached(a, goal, n) && Steadfast(s, goal, a, e) && e.Receive? && e.node == n
    ensures Stepped(s, goal, n, a, e, b)
    ensures b.workers[n] == ReceiveOf(s.build, a.workers[n], e.message)
  {
    hide Quorate, Harmless, ReceiveOf, DecodeVote, Open, Reached;
    MemberHears(s, goal, a.workers[n], e.message);
  }

  lemma MemberStep(s: Setting, goal: Goal, n: nat, a: System, e: Event, b: System)
    requires s.build.cadence.Valid() && Quorate(s, goal) && n in goal.keys && Moves(s, a, e, b) && Steadfast(s, goal, a, e)
    requires Alive(s, goal, n, a)
    ensures n in a.workers && Stepped(s, goal, n, a, e, b)
  {
    hide Quorate, Moves, Reached, Open, Progressed;
    if Reached(a, goal, n) {
      StaysReached(s, goal, n, a, e, b);
    } else if e.Import? || e.node != n {
      OthersLeave(s, n, a, e, b);
    } else if e.Tick? {
      TickStepped(s, goal, n, a, e, b);
    } else if e.Receive? {
      ReceiveStepped(s, goal, n, a, e, b);
    }
  }

  // ---------------------------------------------------------------- runs

  /** In step `q` node `m` sends `v`. */
  ghost predicate Sends(s: Setting, states: seq<System>, events: seq<Event>, q: nat, m: nat, v: Vote)
    requires s.build.cadence.Valid() && Runs(s, states, events)
  {
    && q < |events| && Moves(s, states[q], events[q], states[q + 1])
    && events[q].Tick? && events[q].node == m && OutcomeOf(s, states[q], events[q]).sent == Some(v)
  }

  /** The members sign with no key but their own, and their chains agree: whenever one has a block at the height, it is
      the goal's. */
  ghost predicate Agreeing(goal: Goal, events: seq<Event>) {
    forall q | 0 <= q < |events| && events[q].Tick? && events[q].node in goal.keys ::
      && (events[q].key.None? || events[q].key == Some(goal.keys[events[q].node]))
      && (goal.height in events[q].chain.blocks ==> events[q].chain.blocks[goal.height] == goal.hash)
  }

  /** A valid vote for a member's account that reaches a member from step `i` on is one a member has sent. */
  ghost predicate Unforged(s: Setting, goal: Goal, states: seq<System>, events: seq<Event>, i: nat)
    requires s.build.cadence.Valid() && Runs(s, states, events)
  {
    forall q | i <= q < |events| && events[q].Receive? && events[q].node in goal.keys ::
      DecodeVote(events[q].message).Some? && Speaks(s, goal, DecodeVote(events[q].message).value) ==>
        exists p: nat, m :: p < q && m in goal.keys && Sends(s, states, events, p, m, DecodeVote(events[q].message).value)
  }

  /** From step `i` on an undecided member ticks with a key and with the block ready for a vote, and does not restart. */
  ghost predicate Attending(s: Setting, goal: Goal, states: seq<System>, events: seq<Event>, i: nat)
    requires s.build.cadence.Valid() && Runs(s, states, events)
  {
    forall q | i <= q < |events| && !events[q].Import? && events[q].node in goal.keys && !Reached(states[q], goal, events[q].node) ::
      !events[q].Restart? && (events[q].Tick? ==> events[q].key.Some? && Serves(s.build, events[q].chain, goal.height))
  }

  /** Between steps `i` and `r` member `n` receives a vote for the height that `m` has sent. */
  ghost predicate Hears(s: Setting, goal: Goal, states: seq<System>, events: seq<Event>, n: nat, m: nat, i: nat, r: nat)
    requires s.build.cadence.Valid() && Runs(s, states, events) && r <= |events|
  {
    exists p: nat, q: nat, v: Vote :: p < q && i <= q < r && Sends(s, states, events, p, m, v)
      && v.height == goal.height && events[q] == Receive(n, EncodeVote(v))
  }

  function TicksOf(n: nat, events: seq<Event>, from: nat, to: nat): nat requires from <= to <= |events| {
    if from == to then 0 else TicksOf(n, events, from, to - 1) + if events[to - 1].Tick? && events[to - 1].node == n then 1 else 0
  }

  /** What the theorem below assumes of a run from step `i` on. */
  ghost predicate Convenes(s: Setting, goal: Goal, states: seq<System>, events: seq<Event>, i: nat)
    requires s.build.cadence.Valid() && Runs(s, states, events)
  {
    && TrustedRun(s, states, events) && i <= |events| && Quorate(s, goal)
    && Agreeing(goal, events) && Unforged(s, goal, states, events, i) && Attending(s, goal, states, events, i)
    && (forall n | n in goal.keys :: Underway(s, goal, n, states[i]))
  }

  lemma CastForGoal(s: Setting, goal: Goal, m: nat, w: WorkerState, chain: Chain, key: Option<VoteKey>, finalizes: bool, after: Chain)
    requires s.build.cadence.Valid() && m in goal.keys && ValidKey(s, goal.keys[m]) && (key.None? || key == Some(goal.keys[m]))
    requires goal.height in chain.blocks ==> chain.blocks[goal.height] == goal.hash
    requires var sent := TickOf(s.build, w, chain, key, finalizes, after).sent; sent.Some? && sent.value.height == goal.height
    ensures var v := TickOf(s.build, w, chain, key, finalizes, after).sent.value;
      && v.hash == goal.hash && Valid(s)(v) && ResolveVoter(v.signer, s.delegationOf(goal.height)) == AccountOf(s, goal, m)
  {
    hide TickOf, VotesAt, SignMessage, VerifySig;
    VoteSentExactly(s.build, w, chain, key, finalizes, after);
    SentVoteVerifies(s.build, w, chain, goal.keys[m], finalizes, after);
  }

  /** What a member sends for the height is for the block, and counts for its account. */
  lemma SentForGoal(s: Setting, goal: Goal, states: seq<System>, events: seq<Event>, q: nat, m: nat, v: Vote)
    requires s.build.cadence.Valid() && Runs(s, states, events) && Quorate(s, goal) && Agreeing(goal, events)
    requires m in goal.keys && Sends(s, states, events, q, m, v) && v.height == goal.height
    ensures v.hash == goal.hash && Speaks(s, goal, v)
    ensures ResolveVoter(v.signer, s.delegationOf(goal.height)) == AccountOf(s, goal, m)
  {
    RunShape(s, states, events);
    hide TickOf, Runs, Agreeing, Quorate, Step, AccountOf, ResolveVoter, ValidKey, VerifySig;
    var e := events[q];
    AgreeingAt(goal, events, q);
    QuorateKey(s, goal, m);
    CastForGoal(s, goal, m, states[q].workers[m], e.chain, e.key, e.finalizes, e.after);
    assert AccountOf(s, goal, m) in Accounts(s, goal);
  }

  lemma RunShape(s: Setting, states: seq<System>, events: seq<Event>)
    requires s.build.cadence.Valid() && Runs(s, states, events)
    ensures |states| == |events| + 1
  {}

  lemma AgreeingAt(goal: Goal, events: seq<Event>, q: nat)
    requires Agreeing(goal, events) && q < |events| && events[q].Tick? && events[q].node in goal.keys
    ensures events[q].key.None? || events[q].key == Some(goal.keys[events[q].node])
    ensures goal.height in events[q].chain.blocks ==> events[q].chain.blocks[goal.height] == goal.hash
  {}

  lemma QuorateKey(s: Setting, goal: Goal, m: nat)
    requires Quorate(s, goal) && m in goal.keys
    ensures ValidKey(s, goal.keys[m])
  {}

  lemma ServedBlock(b: Build, chain: Chain, h: U32)
    requires b.cadence.Valid() && Serves(b, chain, h)
    ensures h in chain.blocks
  {}

  lemma RunSteadfast(s: Setting, goal: Goal, states: seq<System>, events: seq<Event>, i: nat, q: nat)
    requires s.build.cadence.Valid() && Runs(s, states, events) && Convenes(s, goal, states, events, i) && i <= q < |events|
    ensures Moves(s, states[q], events[q], states[q + 1]) && Steadfast(s, goal, states[q], events[q])
  {
    var e := events[q];
    assert Moves(s, states[q], e, states[q + 1]) && Trusted(s, states[q], e);
    hide Runs, TrustedRun, Moves, Reached, Serves, Coherent, ValidKey, Quorate, DecodeVote, Speaks, Agreeing;
    match e {
      case Tick(n, chain, _, _, _) =>
        if n in goal.keys && !Reached(states[q], goal, n) {
          AgreeingAt(goal, events, q);
          ServedBlock(s.build, chain, goal.height);
        }
      case Receive(n, message) =>
        if n in goal.keys && DecodeVote(message).Some? && Speaks(s, goal, DecodeVote(message).value) {
          var p: nat, m :| p < q && m in goal.keys && Sends(s, states, events, p, m, DecodeVote(message).value);
          assert DecodeVote(message).value.height == goal.height by { SpeaksHeight(s, goal, DecodeVote(message).value); }
          SentForGoal(s, goal, states, events, p, m, DecodeVote(message).value);
        }
      case Import(_, _, _, _, _, _) =>
      case Restart(_, _) =>
    }
  }

  lemma SpeaksHeight(s: Setting, goal: Goal, v: Vote)
    requires Speaks(s, goal, v)
    ensures v.height == goal.height
  {}

  lemma ConvenesAt(s: Setting, goal: Goal, states: seq<System>, events: seq<Event>, i: nat, n: nat)
    requires s.build.cadence.Valid() && Runs(s, states, events) && Convenes(s, goal, states, events, i) && n in goal.keys
    ensures Quorate(s, goal) && Alive(s, goal, n, states[i])
  {
    hide Quorate, Unforged, Attending, Agreeing, TrustedRun, Open;
  }

  /** At every step from `i` on a member has decided or is still under way. */
  lemma {:induction false} Along(s: Setting, goal: Goal, states: seq<System>, events: seq<Event>, n: nat, i: nat, j: nat)
    requires s.build.cadence.Valid() && Runs(s, states, events) && Convenes(s, goal, states, events, i)
    requires n in goal.keys && i <= j <= |events|
    ensures Alive(s, goal, n, states[j])
    decreases j
  {
    hide *;
    RunShape(s, states, events);
    ConvenesAt(s, goal, states, events, i, n);
    if i < j {
      Along(s, goal, states, events, n, i, j - 1);
      RunSteadfast(s, goal, states, events, i, j - 1);
      MemberStep(s, goal, n, states[j - 1], events[j - 1], states[j]);
      SteppedOn(s, goal, n, states[j - 1], events[j - 1], states[j]);
    }
  }

  /** What the next step does to it. */
  lemma Next(s: Setting, goal: Goal, states: seq<System>, events: seq<Event>, n: nat, i: nat, j: nat)
    requires s.build.cadence.Valid() && Runs(s, states, events) && Convenes(s, goal, states, events, i)
    requires n in goal.keys && i <= j < |events|
    ensures n in states[j].workers && Moves(s, states[j], events[j], states[j + 1])
    ensures Stepped(s, goal, n, states[j], events[j], states[j + 1])
  {
    hide *;
    RunShape(s, states, events);
    ConvenesAt(s, goal, states, events, i, n);
    Along(s, goal, states, events, n, i, j);
    RunSteadfast(s, goal, states, events, i, j);
    MemberStep(s, goal, n, states[j], events[j], states[j + 1]);
  }

  lemma SteppedOn(s: Setting, goal: Goal, n: nat, a: System, e: Event, b: System)
    requires s.build.cadence.Valid() && n in goal.keys && n in a.workers && Stepped(s, goal, n, a, e, b) && Moves(s, a, e, b)
    ensures Alive(s, goal, n, b)
  {
    hide OutcomeOf, VoicesAfter, Reception, ReceiveOf, DecodeVote, Booted, ProofVoices, VotesIn, Open, Reached, Progressed;
    if e.Import? && Reception(s, e.chain, e.number, e.hash, e.proof) == Accepted {
      ReceptionReads(s, e.chain, e.number, e.hash, e.proof);
    }
  }

  /** A vote of a member's account, once held, stays held while its holder is undecided. */
  lemma {:induction false} StaysHeard(
    s: Setting, goal: Goal, states: seq<System>, events: seq<Event>, n: nat, i: nat, j: nat, k: nat, a: ByteString
  )
    requires s.build.cadence.Valid() && Runs(s, states, events) && Convenes(s, goal, states, events, i)
    requires n in goal.keys && i <= j <= k <= |events| && a in Accounts(s, goal)
    requires n in states[j].workers && a in states[j].workers[n].votes
    ensures Reached(states[k], goal, n) || (n in states[k].workers && a in states[k].workers[n].votes)
    decreases k
  {
    hide *;
    RunShape(s, states, events);
    if j < k {
      StaysHeard(s, goal, states, events, n, i, j, k - 1, a);
      Next(s, goal, states, events, n, i, k - 1);
      if Reached(states[k - 1], goal, n) {
        StaysReached(s, goal, n, states[k - 1], events[k - 1], states[k]);
      } else {
        SteppedHeard(s, goal, n, states[k - 1], events[k - 1], states[k], a);
      }
    }
  }

  lemma SteppedHeard(s: Setting, goal: Goal, n: nat, a: System, e: Event, b: System, account: ByteString)
    requires s.build.cadence.Valid() && n in goal.keys && n in a.workers && Stepped(s, goal, n, a, e, b)
    requires account in Accounts(s, goal) && account in a.workers[n].votes
    ensures Reached(b, goal, n) || (n in b.workers && account in b.workers[n].votes)
  {
    hide Reached, Open, Accounts;
  }

  /** A member that has received another's vote holds it. */
  lemma HeardIsHeld(s: Setting, goal: Goal, states: seq<System>, events: seq<Event>, n: nat, m: nat, i: nat, r: nat)
    requires s.build.cadence.Valid() && Runs(s, states, events) && Convenes(s, goal, states, events, i)
    requires n in goal.keys && m in goal.keys && r <= |events| && Hears(s, goal, states, events, n, m, i, r)
    ensures Reached(states[r], goal, n) || (n in states[r].workers && AccountOf(s, goal, m) in states[r].workers[n].votes)
  {
    var p: nat, q: nat, v: Vote :| p < q && i <= q < r && Sends(s, states, events, p, m, v)
      && v.height == goal.height && events[q] == Receive(n, EncodeVote(v));
    hide Reached, Open, Quorate, Sends, Step, EncodeVote, DecodeVote, Hears;
    SentForGoal(s, goal, states, events, p, m, v);
    VoteCodec(v, EncodeVote(v));
    Along(s, goal, states, events, n, i, q);
    RunSteadfast(s, goal, states, events, i, q);
    assert AccountOf(s, goal, m) in Accounts(s, goal);
    if Reached(states[q], goal, n) {
      StillReached(s, goal, states, events, n, i, q, r);
    } else {
      ReceiveStepped(s, goal, n, states[q], events[q], states[q + 1]);
      MemberHears(s, goal, states[q].workers[n], EncodeVote(v));
      Along(s, goal, states, events, n, i, q + 1);
      StaysHeard(s, goal, states, events, n, i, q + 1, r, AccountOf(s, goal, m));
    }
  }

  lemma {:induction false} StillReached(s: Setting, goal: Goal, states: seq<System>, events: seq<Event>, n: nat, i: nat, j: nat, k: nat)
    requires s.build.cadence.Valid() && Runs(s, states, events) && Convenes(s, goal, states, events, i)
    requires i <= j <= k <= |events| && Reached(states[j], goal, n)
    ensures Reached(states[k], goal, n)
    decreases k
  {
    hide *;
    RunShape(s, states, events);
    if j < k {
      StillReached(s, goal, states, events, n, i, j, k - 1);
      RunSteadfast(s, goal, states, events, i, k - 1);
      StaysReached(s, goal, n, states[k - 1], events[k - 1], states[k]);
    }
  }

  ghost predicate AllHeard(s: Setting, goal: Goal, sys: System, n: nat) requires n in goal.keys {
    n in sys.workers && forall a | a in Accounts(s, goal) && a != AccountOf(s, goal, n) :: a in sys.workers[n].votes
  }

  /** From step `r` on an undecided member holds the votes of all the others. */
  lemma HoldsAll(s: Setting, goal: Goal, states: seq<System>, events: seq<Event>, n: nat, i: nat, r: nat, j: nat)
    requires s.build.cadence.Valid() && Runs(s, states, events) && Convenes(s, goal, states, events, i)
    requires n in goal.keys && i <= r <= j <= |events|
    requires forall m | m in goal.keys && m != n :: Hears(s, goal, states, events, n, m, i, r)
    ensures Reached(states[j], goal, n) || AllHeard(s, goal, states[j], n)
  {
    RunShape(s, states, events);
    hide Reached, Hears, Convenes, Runs;
    Along(s, goal, states, events, n, i, j);
    AliveWorks(s, goal, n, states[j]);
    if Reached(states[r], goal, n) {
      StillReached(s, goal, states, events, n, i, r, j);
    } else if !Reached(states[j], goal, n) {
      forall a | a in Accounts(s, goal) && a != AccountOf(s, goal, n) ensures a in states[j].workers[n].votes {
        var m :| m in goal.keys && AccountOf(s, goal, m) == a;
        HeardIsHeld(s, goal, states, events, n, m, i, r);
        StaysHeard(s, goal, states, events, n, i, r, j, a);
      }
    }
  }

  /** The block has been confirmed in each of the last `t` rounds, which were not yet enough. */
  ghost predicate Confirmed(s: Setting, goal: Goal, sys: System, n: nat, t: nat) {
    n in sys.workers && (t == 0 || (sys.workers[n].ballot.pref == goal.hash && t <= sys.workers[n].ballot.streak && t < s.build.cadence.beta))
  }

  lemma OneMoreRound(s: Setting, goal: Goal, n: nat, a: System, e: Event, b: System, t: nat)
    requires s.build.cadence.Valid() && n in goal.keys && n in a.workers && Stepped(s, goal, n, a, e, b) && Moves(s, a, e, b)
    requires Confirmed(s, goal, a, n, t) && AllHeard(s, goal, a, n)
    ensures Reached(b, goal, n) || Confirmed(s, goal, b, n, t + if e.Tick? && e.node == n then 1 else 0)
  {
    SteppedOn(s, goal, n, a, e, b);
    hide Reached, Open, Step, Accounts, Moves;
    if !Reached(b, goal, n) && e.Tick? && e.node == n {
      var o: Outcome :| o.attempt.None? && o.next == b.workers[n] && Progressed(s, goal, n, a.workers[n], o);
      assert Accounts(s, goal) <= a.workers[n].votes.Keys + {AccountOf(s, goal, n)};
    }
  }

  lemma {:induction false} RoundsConfirm(s: Setting, goal: Goal, states: seq<System>, events: seq<Event>, n: nat, i: nat, r: nat, j: nat)
    requires s.build.cadence.Valid() && Runs(s, states, events) && Convenes(s, goal, states, events, i)
    requires n in goal.keys && i <= r <= j <= |events|
    requires forall m | m in goal.keys && m != n :: Hears(s, goal, states, events, n, m, i, r)
    ensures Reached(states[j], goal, n) || Confirmed(s, goal, states[j], n, TicksOf(n, events, r, j))
    decreases j
  {
    hide *;
    RunShape(s, states, events);
    Along(s, goal, states, events, n, i, j);
    TicksStep(n, events, r, j);
    AliveWorks(s, goal, n, states[j]);
    if j == r {
      NoneConfirmed(s, goal, states[j], n);
    } else {
      RoundsConfirm(s, goal, states, events, n, i, r, j - 1);
      HoldsAll(s, goal, states, events, n, i, r, j - 1);
      Next(s, goal, states, events, n, i, j - 1);
      if Reached(states[j - 1], goal, n) {
        StaysReached(s, goal, n, states[j - 1], events[j - 1], states[j]);
      } else {
        OneMoreRound(s, goal, n, states[j - 1], events[j - 1], states[j], TicksOf(n, events, r, j - 1));
      }
    }
  }

  lemma TicksStep(n: nat, events: seq<Event>, from: nat, to: nat)
    requires from <= to <= |events|
    ensures TicksOf(n, events, from, to) ==
      if from == to then 0 else TicksOf(n, events, from, to - 1) + if events[to - 1].Tick? && events[to - 1].node == n then 1 else 0
  {}

  lemma EnoughRounds(s: Setting, goal: Goal, sys: System, n: nat, t: nat)
    requires (Reached(sys, goal, n) || Confirmed(s, goal, sys, n, t)) && t >= Rounds(s.build)
    ensures DecidedBy(sys, n, goal.height, goal.hash)
  {
    hide DecidedBy;
  }

  lemma NoneConfirmed(s: Setting, goal: Goal, sys: System, n: nat)
    requires n in sys.workers
    ensures Confirmed(s, goal, sys, n, 0)
  {}

  /** CONVERGENCE. Let the nodes of a goal vote for a quorum of their height's committee, and from some step of a run
      on be at that height, undecided, on chains that agree on its block. If each then hears the vote that each other
      one cast, and goes on for beta rounds, each decides the block: in whatever order the events come, however often
      messages are repeated, and whatever votes for other blocks the rest of the committee sends them. */
  lemma CommitteeDecides(s: Setting, goal: Goal, states: seq<System>, events: seq<Event>, i: nat, r: nat)
    requires s.build.cadence.Valid() && Runs(s, states, events) && Convenes(s, goal, states, events, i) && i <= r <= |events|
    requires forall n, m | n in goal.keys && m in goal.keys && n != m :: Hears(s, goal, states, events, n, m, i, r)
    requires forall n | n in goal.keys :: TicksOf(n, events, r, |events|) >= Rounds(s.build)
    ensures forall n | n in goal.keys :: DecidedBy(states[|events|], n, goal.height, goal.hash)
  {
    hide *;
    RunShape(s, states, events);
    forall n | n in goal.keys ensures DecidedBy(states[|events|], n, goal.height, goal.hash) {
      RoundsConfirm(s, goal, states, events, n, i, r, |events|);
      EnoughRounds(s, goal, states[|events|], n, TicksOf(n, events, r, |events|));
    }
  }
}
