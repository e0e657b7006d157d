/** A run in which two members of a committee meet all that convergence asks for: they vote, swap votes, and decide. */
module FinalityMeeting {
  import opened Bytes
  import opened Voting
  import opened FinalityProof
  import opened FinalityWorker
  import opened FinalityRun
  import opened FinalityLiveness
  import opened FinalityBoundary
  import opened FinalityRestart
  import opened FinalityConvergence

  const SECOND: Digest := [9] + Zeros(31)

  function Both(epoch: nat, at: Digest): set<ByteString> { {MEMBER, SECOND} }
  function BothAt(h: U32): set<ByteString> { {MEMBER, SECOND} }
  function BlankSignature(message: ByteString): Signature { Zeros(64) }

  function Pair(): Setting { Setting(Build(TESTNET, 1, AnySignature, Domain(0, ZERO_HASH)), BothAt, NoDelegationAt) }

  function View(): Chain {
    Chain(2, 10, BLOCK, map[0 := GENESIS, 10 := BLOCK], Both, NobodyDelegates, SpecOne, NeverHalted)
  }

  function KeyAt(n: nat): VoteKey { VoteKey(if n == 0 then MEMBER else SECOND, BlankSignature) }

  function Meeting(): Goal { Goal(10, BLOCK, map[0 := KeyAt(0), 1 := KeyAt(1)]) }

  function CastBy(n: nat): Vote { Vote(10, BLOCK, KeyAt(n).signer, Zeros(64)) }

  function Ticks(n: nat): Event { Tick(n, View(), Some(KeyAt(n)), false, View()) }

  ghost function Sitting(rounds: nat): (events: seq<Event>)
    ensures |events| == 2 * rounds && forall q | 0 <= q < 2 * rounds :: events[q] == Ticks(q % 2)
  {
    seq(2 * rounds, q requires 0 <= q < 2 * rounds => Ticks(q % 2))
  }

  ghost function Opening(): seq<Event> {
    [Ticks(0), Ticks(1), Receive(0, EncodeVote(CastBy(1))), Receive(1, EncodeVote(CastBy(0)))]
  }

  /** Each votes, each hears the other, and each goes on for four rounds. */
  ghost function Agenda(): (events: seq<Event>)
    ensures |events| == 12
  {
    Opening() + Sitting(4)
  }

  function Gathered(): System {
    System(map[0 := Booted(Pair().build, View()), 1 := Booted(Pair().build, View())], map[], {}, {}, {})
  }

  predicate Local(sys: System, events: seq<Event>) {
    forall q | 0 <= q < |events| :: (events[q].Tick? || events[q].Receive?) && events[q].node in sys.workers
  }

  lemma LocalStep(s: Setting, sys: System, e: Event)
    requires s.build.cadence.Valid() && (e.Tick? || e.Receive?) && e.node in sys.workers
    ensures Enabled(sys, e) && Step(s, sys, e).workers.Keys == sys.workers.Keys
  {
    hide OutcomeOf, VoicesAfter, ReceiveOf, DecodeVote;
  }

  ghost predicate Passes(s: Setting, states: seq<System>, events: seq<Event>) requires s.build.cadence.Valid() {
    |states| == |events| + 1 && forall q | 0 <= q < |events| :: Moves(s, states[q], events[q], states[q + 1])
  }

  lemma OneMorePass(s: Setting, states: seq<System>, events: seq<Event>, e: Event, next: System)
    requires s.build.cadence.Valid() && Passes(s, states, events) && Moves(s, states[|events|], e, next)
    ensures Passes(s, states + [next], events + [e])
  {
    hide Moves;
    var longer, all := states + [next], events + [e];
    forall q | 0 <= q < |all| ensures Moves(s, longer[q], all[q], longer[q + 1]) {
      if q < |events| { assert Moves(s, states[q], events[q], states[q + 1]); }
    }
  }

  /** Ticks and deliveries at working nodes can follow each other in any order. */
  lemma {:induction false} Plays(s: Setting, sys: System, events: seq<Event>) returns (states: seq<System>)
    requires s.build.cadence.Valid() && Local(sys, events)
    ensures Passes(s, states, events) && states[0] == sys && states[|events|].workers.Keys == sys.workers.Keys
  {
    if events == [] {
      states := [sys];
      return;
    }
    var k := |events| - 1;
    var before := Plays(s, sys, events[..k]);
    var next := Step(s, before[k], events[k]);
    LocalStep(s, before[k], events[k]);
    hide Step, Enabled;
    OneMorePass(s, before, events[..k], events[k], next);
    assert events[..k] + [events[k]] == events;
    states := before + [next];
  }

  lemma TwoMembers()
    ensures MEMBER != SECOND && |{MEMBER, SECOND}| == 2
    ensures Accounts(Pair(), Meeting()) == {MEMBER, SECOND}
  {
    assert MEMBER[0] == 0 && SECOND[0] == 9;
    var goal := Meeting();
    assert AccountOf(Pair(), goal, 0) == MEMBER && AccountOf(Pair(), goal, 1) == SECOND;
    forall a ensures a in Accounts(Pair(), goal) <==> a in {MEMBER, SECOND} {
      if a == MEMBER { assert 0 in goal.keys; }
      if a == SECOND { assert 1 in goal.keys; }
    }
  }

  lemma MeetingIsQuorate()
    ensures Quorate(Pair(), Meeting())
  {
    TwoMembers();
    forall n | n in Meeting().keys ensures ValidKey(Pair(), Meeting().keys[n]) && AccountOf(Pair(), Meeting(), n) in {MEMBER, SECOND} {
      assert n == 0 || n == 1;
    }
  }

  lemma ViewServes()
    ensures Coherent(Pair(), View()) && Serves(Pair().build, View(), 10)
  {
    forall h: U32 ensures ReadsAt(Pair(), View(), h) && (h in View().blocks ==> FirstOf(Pair(), h) in View().blocks) {
      assert FirstOf(Pair(), h) == h - h % 10;
    }
    assert PinnedAt(TESTNET, View(), 10) == BLOCK && TargetHash(View(), 10) == (BLOCK, true);
    assert MEMBER in Both(1, BLOCK);
    hide ReadsAt, FirstOf;
  }

  lemma GatheredIsOpen(n: nat)
    requires n < 2
    ensures Started(Gathered()) && Underway(Pair(), Meeting(), n, Gathered())
  {
    assert Aim(TESTNET, 2) == 10;
    hide Accounts;
  }

  /** What a member's tick sends. */
  lemma CastIs(n: nat, w: WorkerState)
    requires n < 2 && w.height == 10
    ensures TickOf(Pair().build, w, View(), Some(KeyAt(n)), false, View()).sent == Some(CastBy(n))
  {
    ViewServes();
    PreparedServed(Pair().build, w, View());
    assert TargetHash(View(), 10).0 == BLOCK;
    hide Prepared, Counted, KeepVote, AttemptOf, SignMessage;
  }

  /** The first two items of the agenda. */
  lemma SendsAtFirst(n: nat, states: seq<System>, events: seq<Event>)
    requires n < 2 && Runs(Pair(), states, events) && states[0] == Gathered()
    requires |events| >= 2 && events[0] == Ticks(0) && events[1] == Ticks(1)
    ensures Sends(Pair(), states, events, n, n, CastBy(n))
  {
    RunShape(Pair(), states, events);
    assert Moves(Pair(), states[0], events[0], states[1]) && Moves(Pair(), states[1], events[1], states[2]);
    GatheredIsOpen(n);
    OpenHeight(states[0].workers[n]);
    hide TickOf, Gathered, Open, Runs, Step, View;
    if n == 1 { OthersLeave(Pair(), 1, states[0], events[0], states[1]); }
    CastIs(n, states[n].workers[n]);
  }

  lemma OpenHeight(w: WorkerState)
    requires Open(Pair(), Meeting(), w)
    ensures w.height == 10
  {}

  /** The hypotheses of convergence are met by a run, which so decides. */
  lemma TheyDecide() returns (states: seq<System>)
    ensures Runs(Pair(), states, Agenda()) && Convenes(Pair(), Meeting(), states, Agenda(), 0) && |states| == 13
    ensures DecidedBy(states[12], 0, 10, BLOCK) && DecidedBy(states[12], 1, 10, BLOCK)
  {
    states := AgendaRuns();
    assert Pair().build.cadence.Valid() && Meeting().height == 10 && Meeting().hash == BLOCK;
    hide *;
    AgendaConvenes(states);
    AgendaHears(states);
    AgendaTicks();
    AgendaStart();
    CommitteeDecides(Pair(), Meeting(), states, Agenda(), 0, 4);
    BothDecide(states[12]);
  }

  lemma AgendaRuns() returns (states: seq<System>)
    ensures Runs(Pair(), states, Agenda()) && |states| == 13 && states[0] == Gathered()
  {
    GatheredIsOpen(0);
    AgendaStart();
    forall q: nat | q < 12 ensures OnAgenda(Agenda()[q], q) { AgendaItems(q); }
    assert 0 in Gathered().workers && 1 in Gathered().workers;
    hide Agenda, Gathered, EncodeVote, View, Moves, Open;
    states := Plays(Pair(), Gathered(), Agenda());
  }

  lemma BothDecide(sys: System)
    requires forall n | n in Meeting().keys :: DecidedBy(sys, n, 10, BLOCK)
    ensures DecidedBy(sys, 0, 10, BLOCK) && DecidedBy(sys, 1, 10, BLOCK)
  {
    hide DecidedBy;
    assert 0 in Meeting().keys && 1 in Meeting().keys;
  }

  lemma AgendaStart()
    ensures |Agenda()| == 12 && Agenda()[0] == Ticks(0) && Agenda()[1] == Ticks(1)
    ensures Agenda()[2] == Receive(0, EncodeVote(CastBy(1))) && Agenda()[3] == Receive(1, EncodeVote(CastBy(0)))
  {
    hide EncodeVote;
  }

  lemma MeetingKeys(n: nat)
    ensures n in Meeting().keys <==> n < 2
  {}

  lemma TicksNode(n: nat)
    ensures Ticks(n).Tick? && Ticks(n).node == n
  {}

  lemma {:induction false} SittingTicks(n: nat, events: seq<Event>, k: nat)
    requires n < 2 && 4 + 2 * k <= |events| && forall q | 4 <= q < 4 + 2 * k :: events[q] == Ticks(q % 2)
    ensures TicksOf(n, events, 4, 4 + 2 * k) == k
  {
    hide TicksOf, Ticks;
    TicksNode(0);
    TicksNode(1);
    var end := 4 + 2 * k;
    TicksStep(n, events, 4, end);
    if k > 0 {
      SittingTicks(n, events, k - 1);
      TicksStep(n, events, 4, end - 1);
      assert events[end - 2] == Ticks(0) && events[end - 1] == Ticks(1);
    }
  }

  lemma AgendaRound(q: nat)
    requires 4 <= q < 12
    ensures Agenda()[q] == Ticks(q % 2)
  {
    hide Ticks, Opening;
    assert |Opening()| == 4 by { OpeningLength(); }
    assert Agenda()[q] == Sitting(4)[q - 4] && (q - 4) % 2 == q % 2;
  }

  lemma OpeningLength()
    ensures |Opening()| == 4
  {}

  lemma FourRounds()
    ensures Rounds(Pair().build) == 4
  {}

  lemma AgendaTicks()
    ensures forall n | n in Meeting().keys :: TicksOf(n, Agenda(), 4, |Agenda()|) >= Rounds(Pair().build)
  {
    hide *;
    FourRounds();
    forall n | n in Meeting().keys ensures TicksOf(n, Agenda(), 4, |Agenda()|) >= Rounds(Pair().build) {
      MeetingKeys(n);
      forall q | 4 <= q < 12 ensures Agenda()[q] == Ticks(q % 2) { AgendaRound(q); }
      SittingTicks(n, Agenda(), 4);
    }
  }

  lemma HeardOnce(goal: Goal, states: seq<System>, events: seq<Event>, n: nat, m: nat, p: nat, q: nat, v: Vote)
    requires Runs(Pair(), states, events) && p < q < 4 <= |events| && Sends(Pair(), states, events, p, m, v)
    requires v.height == goal.height && events[q] == Receive(n, EncodeVote(v))
    ensures Hears(Pair(), goal, states, events, n, m, 0, 4)
  {}

  lemma AgendaHears(states: seq<System>)
    requires Runs(Pair(), states, Agenda()) && states[0] == Gathered()
    ensures forall n, m | n in Meeting().keys && m in Meeting().keys && n != m :: Hears(Pair(), Meeting(), states, Agenda(), n, m, 0, 4)
  {
    hide Agenda, Meeting, Sends, Runs, Hears, EncodeVote, Gathered;
    var events, goal := Agenda(), Meeting();
    AgendaStart();
    forall n: nat ensures n in goal.keys <==> n < 2 { MeetingKeys(n); }
    assert goal.height == 10 by { MeetingHeight(); }
    SendsAtFirst(0, states, events);
    SendsAtFirst(1, states, events);
    HeardOnce(goal, states, events, 0, 1, 1, 2, CastBy(1));
    HeardOnce(goal, states, events, 1, 0, 0, 3, CastBy(0));
  }

  lemma MeetingHeight()
    ensures Meeting().height == 10
  {}

  /** Every item is a tick of one of the two, or the delivery of a vote cast before. */
  ghost predicate OnAgenda(e: Event, q: nat) {
    e == Ticks(0) || e == Ticks(1) || (q == 2 && e == Receive(0, EncodeVote(CastBy(1)))) || (q == 3 && e == Receive(1, EncodeVote(CastBy(0))))
  }

  lemma AgendaItems(q: nat)
    requires q < 12
    ensures |Agenda()| == 12 && OnAgenda(Agenda()[q], q)
  {
    hide EncodeVote;
  }

  lemma AgendaTrusted(states: seq<System>)
    requires Runs(Pair(), states, Agenda())
    ensures TrustedRun(Pair(), states, Agenda())
  {
    var events := Agenda();
    ViewServes();
    assert ValidKey(Pair(), KeyAt(0)) && ValidKey(Pair(), KeyAt(1));
    forall q: nat | q < 12 ensures OnAgenda(events[q], q) { AgendaItems(q); }
    hide Agenda, Coherent, ValidKey, EncodeVote, View, Step;
  }

  lemma AgendaUnforged(states: seq<System>)
    requires Runs(Pair(), states, Agenda()) && states[0] == Gathered()
    ensures Unforged(Pair(), Meeting(), states, Agenda(), 0)
  {
    hide Agenda, Meeting, Sends, Runs, EncodeVote, DecodeVote, Speaks, CastBy, Ticks, Gathered;
    var events := Agenda();
    AgendaStart();
    MeetingKeys(0);
    MeetingKeys(1);
    VoteCodec(CastBy(0), EncodeVote(CastBy(0)));
    VoteCodec(CastBy(1), EncodeVote(CastBy(1)));
    SendsAtFirst(0, states, events);
    SendsAtFirst(1, states, events);
    forall q: nat | q < 12 ensures events[q].Receive? ==> q == 2 || q == 3 { AgendaReceives(q); }
  }

  lemma AgendaReceives(q: nat)
    requires q < 12 && |Agenda()| == 12
    ensures Agenda()[q].Receive? ==> q == 2 || q == 3
  {
    hide EncodeVote;
  }

  lemma AgendaAgrees()
    ensures Agreeing(Meeting(), Agenda())
  {
    var events := Agenda();
    assert View().blocks[10] == BLOCK;
    forall q: nat | q < 12 ensures OnAgenda(events[q], q) { AgendaItems(q); }
    hide Agenda, EncodeVote;
  }

  lemma AgendaAttended(states: seq<System>)
    requires Runs(Pair(), states, Agenda())
    ensures Attending(Pair(), Meeting(), states, Agenda(), 0)
  {
    var events := Agenda();
    ViewServes();
    forall q: nat | q < 12 ensures OnAgenda(events[q], q) { AgendaItems(q); }
    hide Agenda, EncodeVote, Serves, Coherent, View, Reached, Runs;
  }

  lemma AgendaConvenes(states: seq<System>)
    requires Runs(Pair(), states, Agenda()) && states[0] == Gathered()
    ensures Convenes(Pair(), Meeting(), states, Agenda(), 0)
  {
    MeetingIsQuorate();
    forall n | n in Meeting().keys ensures Underway(Pair(), Meeting(), n, Gathered()) { GatheredIsOpen(n); }
    AgendaTrusted(states);
    AgendaUnforged(states);
    AgendaAgrees();
    AgendaAttended(states);
    hide Agenda, TrustedRun, Runs, Unforged, Attending, Agreeing, Quorate, Underway, Gathered;
  }
}
