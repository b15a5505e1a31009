/**
 Where the drained round trip comes from. Nodes share a clock, packets between live nodes
 arrive within `delay`, and the election timeout is at least two delays. Then a timeout only
 fires once the candidate's round trip has drained, so timed runs are runs of the protocol.
 */
module ElectionTiming {
  import opened Common
  import opened Election
  import opened ElectionProtocol
  import opened ElectionAgreement

  /** `sentAt` holds when each packet was last handed to the transport. */
  datatype Timed = Timed(w: World, now: nat, sentAt: map<Packet, nat>)

  datatype TimedStep = Tick | Do(step: Step)

  /** The clock stops short of overtaking a packet; steps read the clock; timeouts are long enough. */
  ghost predicate TimedEnabled(t: Timed, delay: nat, s: TimedStep) {
    match s
    case Tick => forall p :: p in t.w.net && p.to in t.w.live ==> p in t.sentAt && t.now < t.sentAt[p] + delay
    case Do(x) =>
      && Possible(t.w, x)
      && (Acts(x) ==> x.now == t.now)
      && (x.CheckElection? ==> x.electionTimeout >= 2 * delay)
  }

  ghost function Sent(t: Timed, x: Step): set<Packet>
    requires Possible(t.w, x)
  {
    if Acts(x)
    then Emitted(ReactionTo(t.w, x).node.id, t.w.nodes.Keys, ReactionTo(t.w, x).sends)
    else {}
  }

  ghost function TimedApply(t: Timed, delay: nat, s: TimedStep): Timed
    requires TimedEnabled(t, delay, s)
  {
    match s
    case Tick => t.(now := t.now + 1)
    case Do(x) => Timed(Apply(t.w, x), t.now, t.sentAt + map p | p in Sent(t, x) :: t.now)
  }

  ghost predicate TimedRun(t: Timed, delay: nat, steps: seq<TimedStep>, t': Timed)
    decreases |steps|
  {
    if steps == [] then t' == t
    else TimedEnabled(t, delay, steps[0]) && TimedRun(TimedApply(t, delay, steps[0]), delay, steps[1..], t')
  }

  ghost predicate Punctual(t: Timed, delay: nat, p: Packet) {
    p in t.sentAt && t.sentAt[p] <= t.now && (p.to in t.w.live ==> t.now <= t.sentAt[p] + delay)
  }

  /** A candidate's Starts left by the time it started, the Alives it gets within one delay of that. */
  ghost predicate RoundTrip(t: Timed, delay: nat, n: NodeId, p: Packet)
    requires n in t.w.nodes && t.w.nodes[n].startedAt.Some? && p in t.sentAt
  {
    && (p.from == n && p.msg.Start? ==> t.sentAt[p] <= t.w.nodes[n].startedAt.value)
    && (p.to == n && p.msg.Alive? ==> t.sentAt[p] <= t.w.nodes[n].startedAt.value + delay)
  }

  ghost predicate TimedInv(t: Timed, delay: nat) {
    && Inv(t.w)
    && (forall p :: p in t.w.net ==> Punctual(t, delay, p))
    && (forall n, p :: Runs(t.w, n) && p in t.w.net ==> RoundTrip(t, delay, n, p))
  }

  /** Two delays after it started, nothing of a candidate's round trip can still be in flight. */
  lemma TimeoutDrains(t: Timed, delay: nat, n: NodeId)
    requires TimedInv(t, delay) && Runs(t.w, n) && t.w.nodes[n].startedAt.value + 2 * delay < t.now
    ensures Drained(t.w, n)
  {
    forall h | h in t.w.live
      ensures Packet(n, h, t.w.nodes[n].StartMsg()) !in t.w.net && Packet(h, n, Alive(h)) !in t.w.net
    {
      var start, alive := Packet(n, h, t.w.nodes[n].StartMsg()), Packet(h, n, Alive(h));
      assert start in t.w.net ==> Punctual(t, delay, start) && RoundTrip(t, delay, n, start);
      assert alive in t.w.net ==> Punctual(t, delay, alive) && RoundTrip(t, delay, n, alive);
    }
  }

  lemma TimedStepIsEnabled(t: Timed, delay: nat, x: Step)
    requires TimedInv(t, delay) && TimedEnabled(t, delay, Do(x))
    ensures Enabled(t.w, x)
  {
    if x.CheckElection? && DeclaresVictory(t.w.nodes[x.node], x) {
      TimeoutDrains(t, delay, x.node);
    }
  }

  /** A running node's start time is kept or becomes the present, and only then does it send Starts. */
  lemma StartTimes(w: World, s: Step)
    requires WellFormed(w) && Possible(w, s) && Acts(s) && ReactionTo(w, s).node.role == Candidate
    ensures var e, r := w.nodes[ReactionTo(w, s).node.id], ReactionTo(w, s);
            || r.node.startedAt == Some(s.now)
            || (e.role == Candidate && r.node.startedAt == e.startedAt && forall x :: x in r.sends ==> !x.msg.Start?)
    ensures forall x :: x in ReactionTo(w, s).sends && x.msg.Alive? ==>
              s.Deliver? && s.packet.msg.Start? && x.To? && x.peer == s.packet.from
  {
    assert s.Deliver? ==> GoodPacket(w, s.packet);
  }

  lemma PunctualKept(t: Timed, delay: nat, x: Step, p: Packet)
    requires TimedInv(t, delay) && TimedEnabled(t, delay, Do(x)) && p in Apply(t.w, x).net
    ensures Punctual(TimedApply(t, delay, Do(x)), delay, p)
  {
    assert p in t.w.net ==> Punctual(t, delay, p);
    NetAfter(t, x, p);
  }

  lemma NetAfter(t: Timed, x: Step, p: Packet)
    requires WellFormed(t.w) && Possible(t.w, x) && p in Apply(t.w, x).net
    ensures p in t.w.net || p in Sent(t, x)
    ensures Apply(t.w, x).live <= t.w.live
  {
    if Acts(x) {
      ReactionGood(t.w, x);
    }
  }

  /** An Alive leaves within one delay of the candidate's start: its Start had to arrive first. */
  lemma AliveLeavesInTime(t: Timed, delay: nat, x: Step, n: NodeId, p: Packet)
    requires TimedInv(t, delay) && TimedEnabled(t, delay, Do(x)) && Acts(x)
    requires p in Sent(t, x) && p.msg.Alive? && p.to == n && n in t.w.nodes && Runs(Apply(t.w, x), n)
    ensures Apply(t.w, x).nodes[n].startedAt.Some? && t.now <= Apply(t.w, x).nodes[n].startedAt.value + delay
  {
    ReactionGood(t.w, x);
    assert GoodPacket(t.w, x.packet);
    assert x.packet.from == n && x.packet.msg.Start? by {
      AliveAnswersStart(t.w, x, p);
    }
    assert Runs(t.w, n);
    assert Punctual(t, delay, x.packet) && RoundTrip(t, delay, n, x.packet);
  }

  lemma AliveAnswersStart(w: World, s: Step, p: Packet)
    requires WellFormed(w) && Possible(w, s) && Acts(s)
    requires p in Emitted(ReactionTo(w, s).node.id, w.nodes.Keys, ReactionTo(w, s).sends) && p.msg.Alive?
    ensures s.Deliver? && s.packet.msg.Start? && s.packet.from == p.to
  {
  }

  lemma NewRoundTrip(t: Timed, delay: nat, x: Step, n: NodeId, p: Packet)
    requires TimedInv(t, delay) && TimedEnabled(t, delay, Do(x)) && Acts(x)
    requires p in Sent(t, x) && n in t.w.nodes && Runs(Apply(t.w, x), n)
    ensures Apply(t.w, x).nodes[n].startedAt.Some?
    ensures p.from == n && p.msg.Start? ==> t.now <= Apply(t.w, x).nodes[n].startedAt.value
    ensures p.to == n && p.msg.Alive? ==> t.now <= Apply(t.w, x).nodes[n].startedAt.value + delay
  {
    TimedStepIsEnabled(t, delay, x);
    InvKept(t.w, x);
    ReactionGood(t.w, x);
    if p.from == n && p.msg.Start? {
      StartTimes(t.w, x);
    }
    if p.to == n && p.msg.Alive? {
      AliveLeavesInTime(t, delay, x, n, p);
    }
  }

  lemma OldRoundTrip(t: Timed, delay: nat, x: Step, n: NodeId, p: Packet)
    requires TimedInv(t, delay) && TimedEnabled(t, delay, Do(x)) && p in t.w.net
    requires n in t.w.nodes && Runs(Apply(t.w, x), n)
    ensures Apply(t.w, x).nodes[n].startedAt.Some? && p in t.sentAt
    ensures p.from == n && p.msg.Start? ==> t.sentAt[p] <= Apply(t.w, x).nodes[n].startedAt.value
    ensures p.to == n && p.msg.Alive? ==> t.sentAt[p] <= Apply(t.w, x).nodes[n].startedAt.value + delay
  {
    TimedStepIsEnabled(t, delay, x);
    StartedNowOrBefore(t.w, x, n);
    assert Punctual(t, delay, p);
    assert Runs(t.w, n) ==> RoundTrip(t, delay, n, p);
  }

  lemma StartedNowOrBefore(w: World, s: Step, n: NodeId)
    requires Inv(w) && Enabled(w, s) && n in w.nodes && Runs(Apply(w, s), n)
    ensures Apply(w, s).nodes[n].startedAt.Some?
    ensures || (Acts(s) && Apply(w, s).nodes[n].startedAt == Some(s.now))
            || (Runs(w, n) && Apply(w, s).nodes[n].startedAt == w.nodes[n].startedAt)
  {
    assert Runs(w, n) ==> w.nodes[n].startedAt.Some?;
    if Acts(s) {
      ReactionGood(w, s);
      if ReactionTo(w, s).node.id == n {
        StartTimes(w, s);
      }
    }
  }

  lemma RoundTripKept(t: Timed, delay: nat, x: Step, n: NodeId, p: Packet)
    requires TimedInv(t, delay) && TimedEnabled(t, delay, Do(x)) && n in t.w.nodes
    requires Runs(Apply(t.w, x), n) && p in Apply(t.w, x).net
    ensures n in Apply(t.w, x).nodes && Apply(t.w, x).nodes[n].startedAt.Some?
    ensures p in TimedApply(t, delay, Do(x)).sentAt && RoundTrip(TimedApply(t, delay, Do(x)), delay, n, p)
  {
    PunctualKept(t, delay, x, p);
    if p in Sent(t, x) {
      NewRoundTrip(t, delay, x, n, p);
    } else {
      NetAfter(t, x, p);
      OldRoundTrip(t, delay, x, n, p);
    }
  }

  lemma TimedInvKept(t: Timed, delay: nat, s: TimedStep)
    requires TimedInv(t, delay) && TimedEnabled(t, delay, s)
    ensures TimedInv(TimedApply(t, delay, s), delay)
  {
    var t' := TimedApply(t, delay, s);
    if s.Tick? {
      forall p | p in t'.w.net
        ensures Punctual(t', delay, p)
      {
        assert Punctual(t, delay, p);
      }
      forall n, p | Runs(t'.w, n) && p in t'.w.net
        ensures RoundTrip(t', delay, n, p)
      {
        assert Punctual(t, delay, p) && RoundTrip(t, delay, n, p);
      }
    } else {
      TimedStepIsEnabled(t, delay, s.step);
      InvKept(t.w, s.step);
      WellFormedKept(t.w, s.step);
      forall p | p in t'.w.net
        ensures Punctual(t', delay, p)
      {
        PunctualKept(t, delay, s.step, p);
      }
      forall n, p | Runs(t'.w, n) && p in t'.w.net
        ensures RoundTrip(t', delay, n, p)
      {
        RoundTripKept(t, delay, s.step, n, p);
      }
    }
  }

  // ----- main results -----

  /** A timed run is a run of the protocol: its steps other than ticks, in order. */
  lemma TimedRunIsRun(t: Timed, delay: nat, steps: seq<TimedStep>, t': Timed) returns (untimed: seq<Step>)
    requires TimedInv(t, delay) && TimedRun(t, delay, steps, t')
    ensures Run(t.w, untimed, t'.w)
    ensures forall x :: x in untimed ==> Do(x) in steps
    decreases |steps|
  {
    if steps == [] {
      untimed := [];
    } else {
      TimedInvKept(t, delay, steps[0]);
      var rest := TimedRunIsRun(TimedApply(t, delay, steps[0]), delay, steps[1..], t');
      match steps[0]
      case Tick => untimed := rest;
      case Do(x) =>
        TimedStepIsEnabled(t, delay, x);
        untimed := [x] + rest;
    }
  }

  /** With timely packets and an election timeout of two delays, two live nodes never lead at once. */
  lemma TimelyOneLeader(t: Timed, delay: nat, steps: seq<TimedStep>, t': Timed)
    requires Initial(t.w) && TimedRun(t, delay, steps, t')
    ensures AtMostOneLeader(t'.w)
  {
    assert TimedInv(t, delay);
    var untimed := TimedRunIsRun(t, delay, steps, t');
    OneLeader(t.w, untimed, t'.w);
  }

  /** Likewise, without crashes and from a fresh start only the top node leads, and others will follow it. */
  lemma TimelyAgreement(t: Timed, delay: nat, steps: seq<TimedStep>, t': Timed, m: NodeId)
    requires FreshStart(t.w) && Top(t.w, m) && TimedRun(t, delay, steps, t')
    requires forall x :: Do(x) in steps ==> !x.Crash?
    ensures forall x :: Leads(t'.w, x) ==> x == m && forall y :: y in t'.w.nodes && y != m ==> WillFollow(t'.w, y, m)
  {
    assert Initial(t.w);
    assert TimedInv(t, delay);
    var untimed := TimedRunIsRun(t, delay, steps, t');
    Agreement(t.w, untimed, t'.w, m);
  }
}
