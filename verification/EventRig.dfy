/** The asynchronous test rig: a queue of timed events, and the voters of one epoch reacting to them.
    Latencies, losses and sampled peers are nondeterministic. */
module EventRig {
  import opened Bytes
  import opened Voting
  import opened Vectors

  // ---------------------------------------------------------------- events

  /** What an event does when it fires; `sample` is the query round it belongs to. */
  datatype Action = QueryRound(node: nat) | OnQuery(sample: nat, target: nat) | Respond(sample: nat, colour: Byte) | Evaluate(sample: nat)

  datatype Event = Event(time: real, seqNo: nat, action: Action)

  predicate Before(a: Event, b: Event) { a.time < b.time || (a.time == b.time && a.seqNo < b.seqNo) }

  ghost predicate InOrder(q: seq<Event>) { forall i, j | 0 <= i < j < |q| :: Before(q[i], q[j]) }

  function Insert(q: seq<Event>, e: Event): (r: seq<Event>)
    ensures |r| == |q| + 1 && forall x :: x in r <==> x in q || x == e
  {
    if q == [] || Before(e, q[0]) then [e] + q
    else
      assert q == [q[0]] + q[1..];
      [q[0]] + Insert(q[1..], e)
  }

  lemma {:induction false} InsertInOrder(q: seq<Event>, e: Event)
    requires InOrder(q) && forall i | 0 <= i < |q| :: q[i].seqNo < e.seqNo
    ensures InOrder(Insert(q, e))
  {
    if q != [] && !Before(e, q[0]) {
      InsertInOrder(q[1..], e);
      var rest := Insert(q[1..], e);
      forall j | 0 <= j < |rest| ensures Before(q[0], rest[j]) {
        assert rest[j] in rest;
        if rest[j] in q[1..] { var k :| 0 <= k < |q[1..]| && q[1..][k] == rest[j]; assert q[k + 1] == rest[j]; }
      }
    }
  }

  /** What the work of an event can still amount to. */
  function Cost(a: Action): nat {
    match a
    case QueryRound(_) => 1
    case OnQuery(_, _) => 2
    case Respond(_, _) => 1
    case Evaluate(_) => 2
  }

  function Load(q: seq<Event>): nat { if q == [] then 0 else Cost(q[0].action) + Load(q[1..]) }

  lemma {:induction false} InsertLoad(q: seq<Event>, e: Event)
    ensures Load(Insert(q, e)) == Load(q) + Cost(e.action)
  {
    if q != [] && !Before(e, q[0]) {
      InsertLoad(q[1..], e);
      assert Insert(q, e)[1..] == Insert(q[1..], e);
    } else {
      assert Insert(q, e)[1..] == q;
    }
  }

  /** Queries and answers travel as messages; rounds and deadlines are timers of their node. */
  function Carries(a: Action): nat { if a.OnQuery? || a.Respond? then 1 else 0 }

  function Messages(q: seq<Event>): nat { if q == [] then 0 else Carries(q[0].action) + Messages(q[1..]) }

  lemma {:induction false} InsertMessages(q: seq<Event>, e: Event)
    ensures Messages(Insert(q, e)) == Messages(q) + Carries(e.action)
  {
    if q != [] && !Before(e, q[0]) {
      InsertMessages(q[1..], e);
      assert Insert(q, e)[1..] == Insert(q[1..], e);
    } else {
      assert Insert(q, e)[1..] == q;
    }
  }

  lemma {:induction false} AppendMessages(q: seq<Event>, e: Event)
    ensures Messages(q + [e]) == Messages(q) + Carries(e.action)
  {
    if q != [] {
      AppendMessages(q[1..], e);
      assert (q + [e])[1..] == q[1..] + [e];
    } else {
      assert (q + [e])[1..] == [];
    }
  }

  // ---------------------------------------------------------------- the network

  class Network {
    var now: real
    var queue: seq<Event>
    var nextSeq: nat
    var sent: nat
    var dropped: nat
    ghost var fired: seq<Event>

    /** Events fire in (time, sequence) order, and never before the clock. */
    ghost predicate Valid() reads this {
      && InOrder(fired + queue)
      && (forall i | 0 <= i < |queue| :: now <= queue[i].time && queue[i].seqNo < nextSeq)
      && (forall i | 0 <= i < |fired| :: fired[i].time <= now && fired[i].seqNo < nextSeq)
    }

    /** Messages sent that were neither dropped nor are on their way. */
    ghost function Arrived(): int reads this { sent - dropped - Messages(queue) }

    constructor ()
      ensures Valid() && now == 0.0 && queue == [] && sent == 0 == dropped && fired == []
    {
      now, queue, nextSeq, sent, dropped, fired := 0.0, [], 0, 0, 0, [];
    }

    method Schedule(delay: real, action: Action)
      requires Valid()
      modifies this`queue, this`nextSeq
      ensures Valid() && nextSeq == old(nextSeq) + 1
      ensures queue == Insert(old(queue), Event(now + Max0(delay), old(nextSeq), action))
      ensures Load(queue) == Load(old(queue)) + Cost(action) && forall x | x in queue :: x in old(queue) || x.action == action
      ensures Messages(queue) == Messages(old(queue)) + Carries(action)
    {
      var e := Event(now + Max0(delay), nextSeq, action);
      ScheduledInOrder(fired, queue, e);
      InsertLoad(queue, e);
      InsertMessages(queue, e);
      queue := Insert(queue, e);
      nextSeq := nextSeq + 1;
      forall i | 0 <= i < |queue| ensures now <= queue[i].time && queue[i].seqNo < nextSeq {
        assert queue[i] in queue;
      }
    }

    /** Delivered after a latency, or dropped. */
    method Send(lossy: bool, action: Action)
      requires Valid()
      modifies this`queue, this`nextSeq, this`sent, this`dropped
      ensures Valid() && sent == old(sent) + 1
      ensures dropped == old(dropped) ==>
        exists t :: t >= now && queue == Insert(old(queue), Event(t, old(nextSeq), action))
      ensures dropped != old(dropped) ==> lossy && dropped == old(dropped) + 1 && queue == old(queue)
      ensures Load(queue) <= Load(old(queue)) + Cost(action) && forall x | x in queue :: x in old(queue) || x.action == action
      ensures (Carries(action) == 1 ==> Arrived() == old(Arrived())) && (dropped == old(dropped) || lossy)
    {
      sent := sent + 1;
      var lost: bool := *;
      if lossy && lost {
        dropped := dropped + 1;
        return;
      }
      var latency: real := *;
      Schedule(latency, action);
    }

    /** Moves the clock to a deadline that comes before everything still queued. */
    method AdvanceTo(t: real)
      requires Valid() && queue != [] && queue[0].time > t
      modifies this`now
      ensures now == t && (t >= old(now) || fired == [] ==> Valid())
    {
      ghost var all := fired + queue;
      forall i | 0 <= i < |queue| ensures queue[i].time > t {
        assert all[|fired| + i] == queue[i] && all[|fired|] == queue[0];
      }
      now := t;
    }

    method Pop() returns (e: Event)
      requires Valid() && queue != []
      modifies this`queue, this`now, this`fired
      ensures Valid() && e == old(queue)[0] && queue == old(queue)[1..] && now == e.time >= old(now)
      ensures fired == old(fired) + [e] && Arrived() == old(Arrived()) + Carries(e.action)
    {
      e := queue[0];
      assert fired + queue == (fired + [e]) + queue[1..];
      ghost var all := fired + queue;
      forall i | 0 <= i < |fired| ensures Before(fired[i], e) { assert all[i] == fired[i] && all[|fired|] == e; }
      forall i | 1 <= i < |queue| ensures Before(e, queue[i]) { assert all[|fired| + i] == queue[i] && all[|fired|] == e; }
      fired := fired + [e];
      queue := queue[1..];
      now := e.time;
    }
  }

  lemma ScheduledInOrder(fired: seq<Event>, q: seq<Event>, e: Event)
    requires InOrder(fired + q)
    requires forall i | 0 <= i < |q| :: q[i].seqNo < e.seqNo
    requires forall i | 0 <= i < |fired| :: Before(fired[i], e)
    ensures InOrder(fired + Insert(q, e))
  {
    var all := fired + q;
    forall i, j | 0 <= i < j < |q| ensures Before(q[i], q[j]) { assert all[|fired| + i] == q[i] && all[|fired| + j] == q[j]; }
    InsertInOrder(q, e);
    var r := Insert(q, e);
    forall i, j | 0 <= i < |fired| && 0 <= j < |r| ensures Before(fired[i], r[j]) {
      assert r[j] in r;
      if r[j] != e {
        var k :| 0 <= k < |q| && q[k] == r[j];
        assert all[i] == fired[i] && all[|fired| + k] == q[k];
      }
    }
    forall i, j | 0 <= i < j < |fired| ensures Before(fired[i], fired[j]) { assert all[i] == fired[i] && all[j] == fired[j]; }
  }

  // ---------------------------------------------------------------- the epoch

  datatype Epoch = Epoch(
    adversary: seq<bool>, reputation: seq<real>, groups: Option<seq<nat>>, partitionUntil: real, quorum: real, lossy: bool,
    advColour: Byte, params: Params, window: real, gap: real
  )

  ghost predicate ValidEpoch(e: Epoch) {
    |e.adversary| == |e.reputation| && (e.groups.Some? ==> |e.groups.value| == |e.reputation|)
  }

  predicate Honest(e: Epoch, i: nat) { i < |e.adversary| && !e.adversary[i] }

  function Standing(e: Epoch, i: nat): (w: real)
    requires i < |e.reputation|
    ensures w >= 0.0
  {
    Max0(e.reputation[i])
  }

  /** Committee reputation of one group, or of all, among the first `upTo` members. */
  function Held(e: Epoch, group: Option<nat>, upTo: nat): real
    requires ValidEpoch(e) && upTo <= |e.reputation| && (group.Some? ==> e.groups.Some?)
  {
    if upTo == 0 then 0.0
    else
      Held(e, group, upTo - 1) +
      if group.None? || e.groups.value[upTo - 1] == group.value then Standing(e, upTo - 1) else 0.0
  }

  /** The share of committee reputation a node can reach. */
  function Visible(e: Epoch, node: nat, partitioned: bool): real
    requires ValidEpoch(e) && node < |e.reputation| && (partitioned ==> e.groups.Some?)
  {
    var total := Held(e, None, |e.reputation|);
    if total <= 0.0 then 0.0
    else Held(e, if partitioned then Some(e.groups.value[node]) else None, |e.reputation|) / total
  }

  /** One query round: who drew it, when, what it could reach then, and the responses so far. */
  datatype Sample = Sample(node: nat, drawnAt: real, partitioned: bool, visible: real, responses: seq<Byte>)

  ghost predicate Drawn(e: Epoch, x: Sample) requires ValidEpoch(e) {
    && Honest(e, x.node)
    && x.partitioned == (e.groups.Some? && x.drawnAt < e.partitionUntil)
    && x.visible == Visible(e, x.node, x.partitioned)
  }

  predicate MayFinalise(e: Epoch, x: Sample) { e.quorum <= 0.0 || x.visible >= e.quorum }

  ghost predicate Sensible(e: Epoch, samples: nat, a: Action) {
    match a
    case QueryRound(n) => Honest(e, n)
    case OnQuery(r, t) => r < samples && t < |e.adversary|
    case Respond(r, _) => r < samples
    case Evaluate(r) => r < samples
  }

  /** Every decision rests on a sample of its own node that reached the quorum when it was drawn. */
  ghost predicate Founded(e: Epoch, voters: seq<Ballot<Byte>>, samples: seq<Sample>, basis: map<nat, nat>) {
    forall n | 0 <= n < |voters| && voters[n].decision.Some? ::
      n in basis && basis[n] < |samples| && samples[basis[n]].node == n && MayFinalise(e, samples[basis[n]])
  }

  /** No adversary speaks against 0. */
  ghost predicate Peaceful(e: Epoch) {
    e.params.alpha >= 1 && forall i | 0 <= i < |e.adversary| && e.adversary[i] :: e.advColour == 0
  }

  ghost predicate AllZero(voters: seq<Ballot<Byte>>, samples: seq<Sample>, queue: seq<Event>) {
    && (forall n | 0 <= n < |voters| :: voters[n].pref == 0 && (voters[n].decision.Some? ==> voters[n].decision.value == 0))
    && (forall r, j | 0 <= r < |samples| && 0 <= j < |samples[r].responses| :: samples[r].responses[j] == 0)
    && (forall x | x in queue && x.action.Respond? :: x.action.colour == 0)
  }

  /** Work left: each query round costs at most two per peer and two for its evaluation. */
  function Budget(e: Epoch, done: seq<nat>): nat
    requires forall i | 0 <= i < |done| :: done[i] <= e.params.maxRounds
  {
    if done == [] then 0
    else Budget(e, done[..|done| - 1]) + Rounds(e, e.params.maxRounds - done[|done| - 1])
  }

  function Rounds(e: Epoch, n: nat): nat { if n == 0 then 0 else Rounds(e, n - 1) + 2 * e.params.k + 2 }

  lemma {:induction false} BudgetSpent(e: Epoch, done: seq<nat>, i: nat)
    requires forall i | 0 <= i < |done| :: done[i] <= e.params.maxRounds
    requires i < |done| && done[i] < e.params.maxRounds
    ensures Budget(e, done[i := done[i] + 1]) + 2 * e.params.k + 2 == Budget(e, done)
  {
    var n, after := |done| - 1, done[i := done[i] + 1];
    if i < n {
      BudgetSpent(e, done[..n], i);
      assert after[..n] == done[..n][i := done[i] + 1];
    } else {
      assert after[..n] == done[..n];
    }
  }

  class Rig {
    const epoch: Epoch
    const net: Network
    var voters: seq<Ballot<Byte>>
    var roundsDone: seq<nat>
    var samples: seq<Sample>
    ghost var basis: map<nat, nat>
    ghost var handled: seq<Action>

    ghost predicate Valid() reads this, net {
      && ValidEpoch(epoch) && net.Valid()
      && |voters| == |roundsDone| == |epoch.reputation|
      && (forall i | 0 <= i < |roundsDone| :: roundsDone[i] <= epoch.params.maxRounds)
      && (forall x | x in net.queue :: Sensible(epoch, |samples|, x.action))
      && (forall r | 0 <= r < |samples| :: Drawn(epoch, samples[r]))
      && Founded(epoch, voters, samples, basis)
      && (forall n | 0 <= n < |voters| && voters[n].decision.Some? :: voters[n].decision.value == voters[n].pref)
      && (Peaceful(epoch) ==> AllZero(voters, samples, net.queue))
    }

    /** Every event that fired has been acted on, in the order of firing. */
    ghost predicate InSync() reads this, net {
      |handled| == |net.fired| && forall i | 0 <= i < |handled| :: handled[i] == net.fired[i].action
    }

    ghost function Work(): nat
      requires Valid()
      reads this, net
    {
      Load(net.queue) + Budget(epoch, roundsDone)
    }

    constructor (e: Epoch)
      requires ValidEpoch(e)
      ensures Valid() && InSync() && epoch == e && fresh(net) && net.now == 0.0 && net.queue == [] == net.fired && samples == []
      ensures net.sent == 0 == net.dropped
      ensures voters == seq(|e.reputation|, _ => Ballot(0, 0, None))
    {
      epoch := e;
      net := new Network();
      voters := seq(|e.reputation|, _ => Ballot(0, 0, None));
      roundsDone := seq(|e.reputation|, _ => 0);
      samples := [];
      basis := map[];
      handled := [];
    }

    function Report(t: nat): Byte
      requires t < |epoch.adversary| && t < |voters|
      reads this
    {
      if epoch.adversary[t] then epoch.advColour
      else if voters[t].decision.Some? then voters[t].decision.value else voters[t].pref
    }

    /** An honest peer answers the colour it prefers, decided or not, and an adversary the adversaries' colour. */
    lemma AnswersPreference(t: nat)
      requires Valid() && t < |voters|
      ensures Report(t) == if Honest(epoch, t) then voters[t].pref else epoch.advColour
    {}

    /** Opens a query round, remembering what the node can reach now. */
    method OpenSample(n: nat) returns (partitioned: bool)
      requires Valid() && Honest(epoch, n) && n < |voters| && roundsDone[n] < epoch.params.maxRounds
      modifies this`roundsDone, this`samples
      ensures Valid() && Work() + 2 * epoch.params.k + 2 == old(Work())
      ensures roundsDone == old(roundsDone)[n := old(roundsDone)[n] + 1]
      ensures partitioned == Partitioned()
      ensures samples == old(samples) + [Sample(n, net.now, partitioned, Visible(epoch, n, partitioned), [])]
    {
      BudgetSpent(epoch, roundsDone, n);
      roundsDone := roundsDone[n := roundsDone[n] + 1];
      partitioned := Partitioned();
      samples := samples + [Sample(n, net.now, partitioned, Visible(epoch, n, partitioned), [])];
    }

    predicate InReach(n: nat, target: nat, partitioned: bool)
      requires ValidSize(n) && (partitioned ==> epoch.groups.Some?)
      reads this
    {
      target < |voters| && (partitioned ==> epoch.groups.value[target] == epoch.groups.value[n])
    }

    predicate ValidSize(n: nat) reads this {
      n < |voters| == |epoch.reputation| && (epoch.groups.Some? ==> |epoch.groups.value| == |voters|)
    }

    predicate Partitioned() reads net { epoch.groups.Some? && net.now < epoch.partitionUntil }

    /** Nothing sent is lost track of, and nothing is dropped on a network that does not lose messages. */
    ghost predicate Delivers(arrived: int, dropped: nat) reads this, net {
      net.Arrived() == arrived && (net.dropped == dropped || epoch.lossy)
    }

    /** Every message sent was dropped, has been acted on, or is on its way. */
    ghost predicate Accounted() reads this, net {
      net.sent == net.dropped + Messages(net.fired) + Messages(net.queue) && (net.dropped == 0 || epoch.lossy)
    }

    /** A node that has decided, or is out of rounds, does nothing. */
    predicate Idle(n: nat)
      requires n < |voters| == |roundsDone|
      reads this
    {
      voters[n].decision.Some? || roundsDone[n] >= epoch.params.maxRounds
    }

    /** Schedules work of this epoch. */
    method Later(delay: real, action: Action)
      requires Valid() && Sensible(epoch, |samples|, action) && !action.Respond?
      modifies net`queue, net`nextSeq
      ensures Valid() && Work() == old(Work()) + Cost(action) && (!action.OnQuery? ==> net.Arrived() == old(net.Arrived()))
      ensures net.queue == Insert(old(net.queue), Event(net.now + Max0(delay), old(net.nextSeq), action))
    {
      net.Schedule(delay, action);
    }

    /** Draws a sample, asks every peer drawn, and sets the deadline at which it will count what has
        arrived. */
    method StartRound(n: nat)
      requires Valid() && Honest(epoch, n) && n < |voters|
      modifies this`roundsDone, this`samples, net`queue, net`nextSeq, net`sent, net`dropped
      ensures Valid() && Work() <= old(Work()) && Delivers(old(net.Arrived()), old(net.dropped))
      ensures old(Idle(n)) ==> roundsDone == old(roundsDone) && samples == old(samples) && net.queue == old(net.queue)
      ensures !old(Idle(n)) ==>
        && roundsDone == old(roundsDone)[n := old(roundsDone)[n] + 1] && net.sent == old(net.sent) + epoch.params.k
        && samples == old(samples) + [Sample(n, net.now, Partitioned(), Visible(epoch, n, Partitioned()), [])]
      ensures !old(Idle(n)) ==>
        && (exists x :: x in net.queue && x.action == Evaluate(|old(samples)|)
                     && x.time == net.now + Max0(epoch.window))
        && (forall x | x in net.queue ::
              x in old(net.queue) || x.action == Evaluate(|old(samples)|) || Asked(x, |old(samples)|, n, Partitioned()))
    {
      if voters[n].decision.Some? || roundsDone[n] >= epoch.params.maxRounds { return; }
      hide Founded, Drawn, AllZero, ValidEpoch, Peaceful, InOrder, Load, Messages, Sensible;
      var r := |samples|;
      var partitioned := OpenSample(n);
      AskPeers(r, n, partitioned);
      Later(epoch.window, Evaluate(r));
    }

    predicate Asked(x: Event, r: nat, n: nat, partitioned: bool)
      requires ValidSize(n) && (partitioned ==> epoch.groups.Some?)
      reads this
    {
      x.action.OnQuery? && x.action.sample == r && InReach(n, x.action.target, partitioned)
    }

    method AskOne(r: nat, n: nat, partitioned: bool)
      requires Valid() && r < |samples| && n < |voters| && (partitioned ==> epoch.groups.Some?)
      modifies net`queue, net`nextSeq, net`sent, net`dropped
      ensures Valid() && net.sent == old(net.sent) + 1 && Load(net.queue) <= Load(old(net.queue)) + 2
      ensures Delivers(old(net.Arrived()), old(net.dropped))
      ensures forall x | x in net.queue :: x in old(net.queue) || Asked(x, r, n, partitioned)
    {
      var target: nat :| target < |voters| && (partitioned ==> epoch.groups.value[target] == epoch.groups.value[n]);
      net.Send(epoch.lossy, OnQuery(r, target));
    }

    /** Queries `k` peers within reach. */
    method AskPeers(r: nat, n: nat, partitioned: bool)
      requires Valid() && r < |samples| && n < |voters| && (partitioned ==> epoch.groups.Some?)
      modifies net`queue, net`nextSeq, net`sent, net`dropped
      ensures Valid() && net.sent == old(net.sent) + epoch.params.k
      ensures Load(net.queue) <= Load(old(net.queue)) + 2 * epoch.params.k && Delivers(old(net.Arrived()), old(net.dropped))
      ensures forall x | x in net.queue :: x in old(net.queue) || Asked(x, r, n, partitioned)
    {
      for i := 0 to epoch.params.k
        invariant Valid() && net.sent == old(net.sent) + i
        invariant Load(net.queue) <= Load(old(net.queue)) + 2 * i && Delivers(old(net.Arrived()), old(net.dropped))
        invariant forall x | x in net.queue :: x in old(net.queue) || Asked(x, r, n, partitioned)
      {
        AskOne(r, n, partitioned);
      }
    }

    /** A peer that hears a query answers with its colour of that moment. */
    method Answer(r: nat, target: nat)
      requires Valid() && r < |samples| && target < |voters|
      modifies net`queue, net`nextSeq, net`sent, net`dropped
      ensures Valid() && Work() <= old(Work()) + 1 && net.sent == old(net.sent) + 1
      ensures Delivers(old(net.Arrived()), old(net.dropped))
      ensures forall x | x in net.queue :: x in old(net.queue) || x.action == Respond(r, Report(target))
    {
      net.Send(epoch.lossy, Respond(r, Report(target)));
    }

    /** The samples after one more answer to a query round. */
    ghost function Heard(before: seq<Sample>, r: nat, colour: Byte): seq<Sample>
      requires r < |before|
    {
      before[r := before[r].(responses := before[r].responses + [colour])]
    }

    method Receive(r: nat, colour: Byte)
      requires Valid() && r < |samples| && (Peaceful(epoch) ==> colour == 0)
      modifies this`samples
      ensures Valid() && Work() == old(Work())
      ensures samples == Heard(old(samples), r, colour)
    {
      samples := samples[r := samples[r].(responses := samples[r].responses + [colour])];
    }

    /** The votes after the owner of a sample has counted it. */
    ghost function Concluded(before: seq<Ballot<Byte>>, x: Sample): seq<Ballot<Byte>>
      requires x.node < |before|
    {
      before[x.node := Advance(before[x.node], Round(Some(BinaryLead(x.responses)), epoch.params, MayFinalise(epoch, x)))]
    }

    /** The owner of a sample counts it; a decision is founded on it. */
    method CountSample(r: nat)
      requires Valid() && r < |samples| && voters[samples[r].node].decision.None?
      modifies this`voters, this`basis
      ensures Valid() && Work() == old(Work()) && voters == Concluded(old(voters), samples[r])
      ensures basis == if voters[samples[r].node].decision.Some? then old(basis)[samples[r].node := r] else old(basis)
    {
      var x := samples[r];
      if Peaceful(epoch) { NoOnes(x.responses); }
      voters := voters[x.node := Advance(voters[x.node], Round(Some(BinaryLead(x.responses)), epoch.params, MayFinalise(epoch, x)))];
      if voters[x.node].decision.Some? { basis := basis[x.node := r]; }
    }

    /** At the deadline the node counts what arrived, and may finalise only if the sample could reach the
        quorum when it was drawn; undecided, it queries again after the gap. */
    method Conclude(r: nat)
      requires Valid() && r < |samples|
      modifies this`voters, this`basis, net`queue, net`nextSeq
      ensures Valid() && Work() <= old(Work()) + 1 && net.Arrived() == old(net.Arrived())
      ensures voters == Concluded(old(voters), samples[r])
      ensures var n := samples[r].node;
        net.queue == if voters[n].decision.Some? then old(net.queue)
                     else Insert(old(net.queue), Event(net.now + Max0(epoch.gap), old(net.nextSeq), QueryRound(n)))
    {
      var n := samples[r].node;
      if voters[n].decision.Some? { return; }
      CountSample(r);
      hide Concluded, Advance;
      if voters[n].decision.None? { Later(epoch.gap, QueryRound(n)); }
    }

    /** What an event changes: only a deadline moves a vote, only an answer a sample, only a query the
        rounds. */
    method Fire(a: Action)
      requires Valid() && Sensible(epoch, |samples|, a) && (Peaceful(epoch) && a.Respond? ==> a.colour == 0)
      modifies this, net`queue, net`nextSeq, net`sent, net`dropped
      ensures Valid() && Work() < old(Work()) + Cost(a) && handled == old(handled) + [a]
      ensures Delivers(old(net.Arrived()), old(net.dropped))
      ensures !a.Evaluate? ==> voters == old(voters)
      ensures !a.QueryRound? ==> roundsDone == old(roundsDone) && |samples| == |old(samples)|
      ensures a.OnQuery? || a.Evaluate? ==> samples == old(samples)
      ensures a.QueryRound? ==> (roundsDone == old(roundsDone) <==> old(Idle(a.node)))
      ensures a.OnQuery? ==> net.sent == old(net.sent) + 1
      ensures a.OnQuery? ==> forall x | x in net.queue :: x in old(net.queue) || x.action == Respond(a.sample, Report(a.target))
      ensures a.Respond? ==> net.queue == old(net.queue)
      ensures a.Respond? ==> samples == Heard(old(samples), a.sample, a.colour)
      ensures a.Evaluate? ==> voters == Concluded(old(voters), samples[a.sample])
    {
      match a {
        case QueryRound(n) => StartRound(n);
        case OnQuery(r, t) => Answer(r, t);
        case Respond(r, c) => Receive(r, c);
        case Evaluate(r) => Conclude(r);
      }
      handled := handled + [a];
    }

    predicate Done()
      reads this
      requires |voters| == |epoch.adversary|
    {
      forall i | 0 <= i < |voters| && Honest(epoch, i) :: voters[i].decision.Some?
    }

    /** Takes the next event and acts on it. */
    method Step()
      requires Valid() && InSync() && net.queue != []
      modifies this, net
      ensures Valid() && InSync() && Work() < old(Work())
      ensures net.now == old(net.queue)[0].time >= old(net.now) && net.fired == old(net.fired) + [old(net.queue)[0]]
      ensures old(Accounted()) ==> Accounted()
    {
      assert net.queue[0] in net.queue;
      AppendMessages(net.fired, net.queue[0]);
      var e := net.Pop();
      Fire(e.action);
    }

    /** Drains events in time order up to `tEnd`, or until every honest member has decided. It always
        terminates, whatever the latencies: each event leaves less work than it found. The clock never
        goes back, unless the deadline itself lies in the past and something is still queued. */
    method RunUntil(tEnd: real)
      requires Valid() && InSync()
      modifies this, net
      ensures InSync()
      ensures tEnd >= old(net.now) || old(net.fired) == [] ==> Valid()
      ensures tEnd >= old(net.now) ==> net.now >= old(net.now) && old(net.fired) <= net.fired
      ensures tEnd >= old(net.now) ==> net.queue == [] || Done() || (net.now == tEnd && net.queue[0].time > tEnd)
      ensures tEnd < old(net.now) ==> net.now == (if old(net.queue) == [] then old(net.now) else tEnd)
      ensures tEnd < old(net.now) ==> net.queue == old(net.queue) && voters == old(voters)
      ensures old(Accounted()) ==> Accounted()
    {
      while net.queue != []
        invariant Valid() && InSync() && old(net.now) <= net.now && old(net.fired) <= net.fired
        invariant old(Accounted()) ==> Accounted()
        invariant net.now <= tEnd || Untouched(old(net.now), old(net.queue), old(net.fired), old(voters))
        decreases Work()
      {
        if net.queue[0].time > tEnd {
          net.AdvanceTo(tEnd);
          break;
        }
        Step();
        if Done() { break; }
      }
    }

    ghost predicate Untouched(now: real, queue: seq<Event>, fired: seq<Event>, was: seq<Ballot<Byte>>)
      reads this, net
    {
      net.now == now && net.queue == queue && net.fired == fired && voters == was
    }

    /** What every run keeps. */
    lemma Conclusions()
      requires Valid()
      ensures Peaceful(epoch) ==> Tally(epoch, voters, 1, |voters|) == 0
      ensures epoch.quorum > 0.5 ==> OneGroup(epoch, voters, samples, basis)
    {
      if epoch.quorum > 0.5 { DecidersShareGroup(epoch, voters, samples, basis); }
      if Peaceful(epoch) { NoneTallied(epoch, voters, |voters|); }
    }
  }

  lemma {:induction false} NoOnes(votes: seq<Byte>)
    requires forall j | 0 <= j < |votes| :: votes[j] == 0
    ensures Ones(votes) == 0
  {
    if votes != [] { NoOnes(votes[..|votes| - 1]); }
  }

  // ---------------------------------------------------------------- a whole epoch

  datatype Outcome = Outcome(decided0: nat, decided1: nat, undecided: nat, safe: bool, capture: bool, fork: bool)

  /** How many honest members decided `want`. */
  function Tally(e: Epoch, voters: seq<Ballot<Byte>>, want: Byte, upTo: nat): nat
    requires upTo <= |voters|
  {
    if upTo == 0 then 0
    else Tally(e, voters, want, upTo - 1) + if Honest(e, upTo - 1) && voters[upTo - 1].decision == Some(want) then 1 else 0
  }

  function HonestCount(e: Epoch, upTo: nat): nat {
    if upTo == 0 then 0 else HonestCount(e, upTo - 1) + if Honest(e, upTo - 1) then 1 else 0
  }

  lemma {:induction false} TalliesFit(e: Epoch, voters: seq<Ballot<Byte>>, upTo: nat)
    requires upTo <= |voters|
    ensures Tally(e, voters, 0, upTo) + Tally(e, voters, 1, upTo) <= HonestCount(e, upTo)
  {
    if upTo > 0 { TalliesFit(e, voters, upTo - 1); }
  }

  method Count(e: Epoch, voters: seq<Ballot<Byte>>) returns (d0: nat, d1: nat, h: nat)
    ensures d0 == Tally(e, voters, 0, |voters|) && d1 == Tally(e, voters, 1, |voters|)
    ensures h == HonestCount(e, |voters|) && d0 + d1 <= h
  {
    d0, d1, h := 0, 0, 0;
    for i := 0 to |voters|
      invariant d0 == Tally(e, voters, 0, i) && d1 == Tally(e, voters, 1, i) && h == HonestCount(e, i)
    {
      if Honest(e, i) {
        h := h + 1;
        if voters[i].decision == Some(0) { d0 := d0 + 1; }
        if voters[i].decision == Some(1) { d1 := d1 + 1; }
      }
    }
    TalliesFit(e, voters, |voters|);
  }

  // ---------------------------------------------------------------- what every run keeps

  lemma {:induction false} GroupsShare(e: Epoch, g: nat, h: nat, upTo: nat)
    requires ValidEpoch(e) && e.groups.Some? && upTo <= |e.reputation| && g != h
    ensures Held(e, Some(g), upTo) + Held(e, Some(h), upTo) <= Held(e, None, upTo)
  {
    if upTo > 0 { GroupsShare(e, g, h, upTo - 1); }
  }

  /** The reputation members vote with: never less than nothing. */
  function Standings(e: Epoch): (w: Vec)
    ensures |w| == |e.reputation| && NonNegative(w)
  {
    seq(|e.reputation|, i requires 0 <= i < |e.reputation| => if e.reputation[i] > 0.0 then e.reputation[i] else 0.0)
  }

  /** Those in reach of a member when a sample was drawn at a time. */
  function ReachAt(e: Epoch, node: nat, time: real): set<nat>
    requires ValidEpoch(e) && node < |e.reputation|
  {
    set i: nat | i < |e.reputation| && (e.groups.Some? && time < e.partitionUntil ==> e.groups.value[i] == e.groups.value[node])
  }

  lemma {:induction false} HeldIsReach(e: Epoch, node: nat, time: real, upTo: nat)
    requires ValidEpoch(e) && node < |e.reputation| && upTo <= |e.reputation|
    ensures var partitioned := e.groups.Some? && time < e.partitionUntil;
      Held(e, if partitioned then Some(e.groups.value[node]) else None, upTo) == SumIn(ReachAt(e, node, time), Standings(e)[..upTo])
  {
    if upTo > 0 {
      HeldIsReach(e, node, time, upTo - 1);
      assert Standings(e)[..upTo][..upTo - 1] == Standings(e)[..upTo - 1];
    }
  }

  lemma {:induction false} HeldIsAll(e: Epoch, upTo: nat)
    requires ValidEpoch(e) && upTo <= |e.reputation|
    ensures Held(e, None, upTo) == Sum(Standings(e)[..upTo])
  {
    if upTo > 0 {
      HeldIsAll(e, upTo - 1);
      assert Standings(e)[..upTo][..upTo - 1] == Standings(e)[..upTo - 1];
    }
  }

  /** A sample may finalise exactly if no quorum is asked for, or those its member could reach when it was drawn hold
      that share of the committee's reputation. */
  lemma FinalisesOnShare(e: Epoch, x: Sample)
    requires ValidEpoch(e) && Drawn(e, x)
    ensures var reach, all := SumIn(ReachAt(e, x.node, x.drawnAt), Standings(e)), Sum(Standings(e));
      MayFinalise(e, x) <==> e.quorum <= 0.0 || (all > 0.0 && reach >= e.quorum * all)
  {
    var n := |e.reputation|;
    assert Standings(e)[..n] == Standings(e);
    HeldIsReach(e, x.node, x.drawnAt, n);
    HeldIsAll(e, n);
    var reach, all := SumIn(ReachAt(e, x.node, x.drawnAt), Standings(e)), Sum(Standings(e));
    hide Sum, SumIn, Held, ReachAt, Standings;
    if all > 0.0 { ShareOrder(reach, all, e.quorum); }
  }

  /** Two decided members whose decisions rest on samples drawn during the partition share a group. */
  ghost predicate OneGroup(e: Epoch, voters: seq<Ballot<Byte>>, samples: seq<Sample>, basis: map<nat, nat>)
    requires |voters| == |e.reputation| && ValidEpoch(e)
  {
    forall i: nat, j: nat | SplitDecider(voters, samples, basis, i) && SplitDecider(voters, samples, basis, j) ::
      e.groups.Some? && e.groups.value[i] == e.groups.value[j]
  }

  predicate SplitDecider(voters: seq<Ballot<Byte>>, samples: seq<Sample>, basis: map<nat, nat>, i: nat) {
    i < |voters| && voters[i].decision.Some? && i in basis && basis[i] < |samples| && samples[basis[i]].partitioned
  }

  lemma DecidersShareGroup(e: Epoch, voters: seq<Ballot<Byte>>, samples: seq<Sample>, basis: map<nat, nat>)
    requires ValidEpoch(e) && e.quorum > 0.5 && |voters| == |e.reputation|
    requires Founded(e, voters, samples, basis) && forall r | 0 <= r < |samples| :: Drawn(e, samples[r])
    ensures OneGroup(e, voters, samples, basis)
  {
    forall i: nat, j: nat | SplitDecider(voters, samples, basis, i) && SplitDecider(voters, samples, basis, j)
      ensures e.groups.Some? && e.groups.value[i] == e.groups.value[j]
    {
      SameGroup(e, voters, samples, basis, i, j);
    }
  }

  lemma SameGroup(e: Epoch, voters: seq<Ballot<Byte>>, samples: seq<Sample>, basis: map<nat, nat>, i: nat, j: nat)
    requires ValidEpoch(e) && e.quorum > 0.5 && |voters| == |e.reputation|
    requires Founded(e, voters, samples, basis) && forall r | 0 <= r < |samples| :: Drawn(e, samples[r])
    requires SplitDecider(voters, samples, basis, i) && SplitDecider(voters, samples, basis, j)
    ensures e.groups.Some? && e.groups.value[i] == e.groups.value[j]
  {
    var x, y := samples[basis[i]], samples[basis[j]];
    assert Drawn(e, x) && Drawn(e, y);
    var g, h := e.groups.value[i], e.groups.value[j];
    var n := |e.reputation|;
    if g != h {
      GroupsShare(e, g, h, n);
      TwoMajorities(Held(e, Some(g), n), Held(e, Some(h), n), Held(e, None, n), e.quorum);
      assert false;
    }
  }

  lemma {:induction false} NoneTallied(e: Epoch, voters: seq<Ballot<Byte>>, upTo: nat)
    requires upTo <= |voters| && forall n | 0 <= n < upTo :: voters[n].decision != Some(1)
    ensures Tally(e, voters, 1, upTo) == 0
  {
    if upTo > 0 { NoneTallied(e, voters, upTo - 1); }
  }

  /** Staggered first queries, then events until the honest committee has decided, nothing is left or
      the deadline has passed. Whatever is lost or late: if no adversary speaks for 1 nobody decides 1, and
      with a quorum above one half the decisions that rest on samples of the partition lie in one group. */
  method RunEpoch(e: Epoch) returns (out: Outcome, rig: Rig)
    requires ValidEpoch(e)
    ensures fresh(rig) && rig.epoch == e && rig.Valid() && rig.InSync() && rig.Accounted()
    ensures out.decided0 == Tally(e, rig.voters, 0, |rig.voters|) && out.decided1 == Tally(e, rig.voters, 1, |rig.voters|)
    ensures out.decided0 + out.decided1 + out.undecided == HonestCount(e, |rig.voters|)
    ensures out.safe == (out.decided1 == 0 && out.undecided == 0)
    ensures Peaceful(e) ==> out.decided1 == 0 && !out.capture && !out.fork
    ensures e.quorum > 0.5 ==> OneGroup(e, rig.voters, rig.samples, rig.basis)
    ensures out.capture == (out.decided1 > 0) && out.fork == (out.decided0 > 0 && out.decided1 > 0)
  {
    rig := new Rig(e);
    for i := 0 to |rig.voters|
      invariant fresh(rig) && fresh(rig.net) && rig.epoch == e && rig.Valid() && rig.InSync() && rig.net.now == 0.0
      invariant |rig.voters| == |e.reputation| && rig.net.fired == [] && rig.Accounted()
    {
      if Honest(e, i) {
        var stagger: real :| 0.0 <= stagger < 1.0;
        rig.Later(stagger, QueryRound(i));
      }
    }
    var tEnd := e.params.maxRounds as real * (e.window + e.gap) + 10.0;
    rig.RunUntil(tEnd);
    rig.Conclusions();
    var d0, d1, h := Count(e, rig.voters);
    out := Outcome(d0, d1, h - d0 - d1, d1 == 0 && h - d0 - d1 == 0, d1 > 0, d0 > 0 && d1 > 0);
  }
}
