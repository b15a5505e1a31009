/**
 Agreement. While nobody crashes, the live node of highest priority is the only one that can
 lead; once it leads it never steps down, and every live node follows it as soon as nothing is
 in flight. This holds from a fresh start, and among the survivors of an earlier crash.
 */
module ElectionAgreement {
  import opened Common
  import opened Election
  import opened ElectionProtocol

  ghost predicate FreshStart(w: World) {
    && w.live == w.nodes.Keys && w.net == multiset{}
    && forall n :: n in w.nodes ==> w.nodes[n] == Fresh(n)
  }

  /** `m` has strictly the highest priority. */
  ghost predicate Top(w: World, m: NodeId) {
    m in w.nodes && forall n :: n in w.nodes && n != m ==> PriorityFromId(n) < PriorityFromId(m)
  }

  /** `m` is live and has strictly the highest priority of all live nodes. */
  ghost predicate TopLive(w: World, m: NodeId) {
    IsLive(w, m) && forall n :: IsLive(w, n) && n != m ==> PriorityFromId(n) < PriorityFromId(m)
  }

  predicate VictoryInFlight(w: World, from: NodeId, to: NodeId) { Packet(from, to, Victory(from)) in w.net }

  predicate Follows(w: World, y: NodeId, m: NodeId)
    requires y in w.nodes
  {
    w.nodes[y].role == Follower && w.nodes[y].leader == Some(m)
  }

  /** `y` follows `m`, or a message that will lead it there is in flight. */
  predicate WillFollow(w: World, y: NodeId, m: NodeId)
    requires y in w.nodes
  {
    Follows(w, y, m) || StartInFlight(w, y, m) || VictoryInFlight(w, m, y)
  }

  ghost predicate Crashless(steps: seq<Step>) { forall s :: s in steps ==> !s.Crash? }

  predicate Unanswered(e: Election) { e.role == Candidate ==> !e.receivedAlive }

  ghost predicate AgreeInv(w: World, m: NodeId) {
    && Inv(w) && TopLive(w, m) && Unanswered(w.nodes[m])
    // live nodes hear only from live nodes, and know no other live leader
    && (forall p :: p in w.net && p.to in w.live ==> p.from in w.live && (p.msg.Victory? ==> p.from == m))
    && (forall n :: IsLive(w, n) ==> KnowsNoRival(w, n, m))
    && (forall n :: Leads(w, n) ==> n == m)
    && (forall y :: IsLive(w, y) && y != m && Leads(w, m) ==> WillFollow(w, y, m))
    && (forall y :: y != m && Runs(w, y) ==> StartInFlight(w, y, m) || Runs(w, m) || Leads(w, m))
  }

  /** Whoever `n` takes for leader is `m` or dead. */
  predicate KnowsNoRival(w: World, n: NodeId, m: NodeId)
    requires n in w.nodes
  {
    w.nodes[n].leader.Some? ==> w.nodes[n].leader.value == m || w.nodes[n].leader.value !in w.live
  }

  /** The top node, still unanswered, hears only Starts from below, which it answers, and its own victory. */
  lemma TopHears(w: World, p: Packet, now: nat, m: NodeId)
    requires AgreeInv(w, m) && p in w.net && p.to == m
    ensures var e, e' := w.nodes[m], OnMessage(w.nodes[m], p.from, p.msg, now).node;
            && Unanswered(e') && (e.role == Leader ==> e'.role == Leader)
            && (e.role == Candidate ==> e'.role != Follower)
  {
    assert GoodPacket(w, p);
  }

  /** No message or local event moves the top node off its lead, or makes it hear an Alive. */
  lemma TopReaction(w: World, s: Step, m: NodeId)
    requires AgreeInv(w, m) && Enabled(w, s) && Acts(s) && ReactionTo(w, s).node.id == m
    ensures var e, e' := w.nodes[m], ReactionTo(w, s).node;
            && Unanswered(e') && (e.role == Leader ==> e'.role == Leader)
            && (e.role == Candidate ==> e'.role != Follower)
  {
    if s.Deliver? {
      TopHears(w, s.packet, s.now, m);
    } else {
      assert w.nodes[m].role == Leader ==> Leads(w, m);
    }
  }

  lemma TopStaysLeader(w: World, s: Step, m: NodeId)
    requires AgreeInv(w, m) && Enabled(w, s) && !s.Crash?
    ensures Apply(w, s).live == w.live && Unanswered(Apply(w, s).nodes[m])
    ensures Leads(w, m) ==> Leads(Apply(w, s), m)
    ensures Runs(w, m) ==> Runs(Apply(w, s), m) || Leads(Apply(w, s), m)
  {
    if Acts(s) {
      ReactionGood(w, s);
      if ReactionTo(w, s).node.id == m {
        TopReaction(w, s, m);
      }
    }
  }

  lemma ActorIsLive(w: World, s: Step)
    requires WellFormed(w) && Possible(w, s) && Acts(s)
    ensures IsLive(w, ReactionTo(w, s).node.id) && Before(w, s).live == w.live
  {
    ReactionGood(w, s);
  }

  /** A reaction learns of no leader but the top node, or the reacting node itself as it wins. */
  lemma LearnsOfTop(w: World, s: Step, m: NodeId)
    requires AgreeInv(w, m) && Enabled(w, s) && Acts(s)
    ensures var r := ReactionTo(w, s);
            r.node.leader.Some? ==>
              || r.node.leader.value == m || r.node.leader.value !in w.live
              || (r.node.role == Leader && r.node.leader == Some(r.node.id))
  {
    ActorIsLive(w, s);
    assert KnowsNoRival(w, ReactionTo(w, s).node.id, m);
    assert s.Deliver? ==> GoodPacket(w, s.packet);
  }

  lemma OnlyTopIsKnown(w: World, s: Step, m: NodeId, n: NodeId)
    requires AgreeInv(w, m) && Enabled(w, s) && !s.Crash? && IsLive(w, n)
    ensures Leads(Apply(w, s), n) ==> n == m
    ensures KnowsNoRival(Apply(w, s), n, m)
  {
    if Leads(Apply(w, s), n) && !Leads(w, n) {
      NewLeader(w, s, n);
      assert IsLive(w, m);
    }
    if Acts(s) {
      ReactionGood(w, s);
      LearnsOfTop(w, s, m);
    }
  }

  /** A packet that a reaction puts in flight comes from the acting node, which leads if it announces so. */
  lemma EmittedBy(w: World, r: Reaction, p: Packet)
    requires GoodReaction(r.node.id, r) && p in React(w, r).net && p !in w.net
    ensures p.from == r.node.id && (p.msg.Victory? ==> r.node.role == Leader)
  {
    assert p in Emitted(r.node.id, w.nodes.Keys, r.sends);
  }

  lemma NewPacket(w: World, s: Step, p: Packet)
    requires WellFormed(w) && Enabled(w, s) && Acts(s) && p in Apply(w, s).net && p !in w.net
    ensures IsLive(w, p.from) && (p.msg.Victory? ==> Leads(Apply(w, s), p.from))
  {
    ActorIsLive(w, s);
    var r := ReactionTo(w, s);
    assert Apply(w, s) == React(Before(w, s), r) && GoodReaction(r.node.id, r) by {
      ReactionGood(w, s);
    }
    assert p !in Before(w, s).net;
    EmittedBy(Before(w, s), r, p);
  }

  lemma OnlyTopAnnounces(w: World, s: Step, m: NodeId, p: Packet)
    requires AgreeInv(w, m) && Enabled(w, s) && !s.Crash?
    requires p in Apply(w, s).net && p.to in w.live
    ensures p.from in w.live && (p.msg.Victory? ==> p.from == m)
  {
    if p !in w.net {
      assert !s.Lose?;
      NewPacket(w, s, p);
      if p.msg.Victory? {
        OnlyTopIsKnown(w, s, m, p.from);
      }
    }
  }

  /** The top node's lead reaches everybody: a victory is broadcast, and so is every answer to a Start. */
  lemma LeadReaches(w: World, s: Step, m: NodeId, y: NodeId)
    requires AgreeInv(w, m) && Enabled(w, s) && !s.Crash? && IsLive(w, y) && y != m
    requires Leads(Apply(w, s), m)
    requires !Leads(w, m) || (s.Deliver? && s.packet.to == m && s.packet.msg.Start?)
    ensures VictoryInFlight(Apply(w, s), m, y)
  {
    assert s.Deliver? ==> GoodPacket(w, s.packet);
    if !Leads(w, m) {
      NewLeader(w, s, m);
    }
    ReactionGood(w, s);
    var x := Broadcast(Victory(m), None);
    assert x == ReactionTo(w, s).sends[|ReactionTo(w, s).sends| - 1];
    SendArrives(w, s, x, y);
  }

  lemma WillFollowKept(w: World, s: Step, m: NodeId, y: NodeId)
    requires AgreeInv(w, m) && Enabled(w, s) && !s.Crash? && IsLive(w, y) && y != m
    requires Leads(Apply(w, s), m)
    ensures WillFollow(Apply(w, s), y, m)
  {
    assert s.Deliver? ==> GoodPacket(w, s.packet);
    var start, victory := Packet(y, m, Start(y, PriorityFromId(y))), Packet(m, y, Victory(m));
    if !Leads(w, m) || (s.Deliver? && s.packet == start) {
      LeadReaches(w, s, m, y);
    } else if Campaigns(w.nodes[y], Apply(w, s).nodes[y]) {
      NewRun(w, s, y, m);
    } else {
      assert WillFollow(w, y, m);
      if start in w.net && start !in Apply(w, s).net {
        OnlyTheTakenPacketLeaves(w, s, start);
      } else if victory in w.net && victory !in Apply(w, s).net {
        OnlyTheTakenPacketLeaves(w, s, victory);
      } else if Follows(w, y, m) {
        StillFollows(w, s, m, y);
      }
    }
  }

  lemma FollowerReaction(w: World, s: Step)
    requires WellFormed(w) && Enabled(w, s) && Acts(s)
    requires var e := w.nodes[ReactionTo(w, s).node.id];
             e.role == Follower && e.leader.Some? && !Campaigns(e, ReactionTo(w, s).node)
    ensures ReactionTo(w, s).node.role != Candidate
    ensures || ReactionTo(w, s).node.leader == w.nodes[ReactionTo(w, s).node.id].leader
            || (s.Deliver? && s.packet.msg.Victory? && ReactionTo(w, s).node.leader == Some(s.packet.from))
  {
    assert s.Deliver? ==> GoodPacket(w, s.packet);
  }

  lemma StillFollows(w: World, s: Step, m: NodeId, y: NodeId)
    requires AgreeInv(w, m) && Enabled(w, s) && !s.Crash? && IsLive(w, y) && y != m
    requires Follows(w, y, m) && !Campaigns(w.nodes[y], Apply(w, s).nodes[y])
    ensures Follows(Apply(w, s), y, m)
  {
    OnlyTopIsKnown(w, s, m, y);
    if Acts(s) {
      ReactionGood(w, s);
      if ReactionTo(w, s).node.id == y {
        FollowerReaction(w, s);
      }
    }
  }

  lemma RunnerReachesTop(w: World, s: Step, m: NodeId, y: NodeId)
    requires AgreeInv(w, m) && Enabled(w, s) && !s.Crash? && IsLive(w, y) && y != m
    requires Runs(Apply(w, s), y)
    ensures StartInFlight(Apply(w, s), y, m) || Runs(Apply(w, s), m) || Leads(Apply(w, s), m)
  {
    TopStaysLeader(w, s, m);
    if Campaigns(w.nodes[y], Apply(w, s).nodes[y]) {
      NewRun(w, s, y, m);
    } else {
      RanBefore(w, s, y);
      var start := Packet(y, m, Start(y, PriorityFromId(y)));
      if start in w.net && start !in Apply(w, s).net {
        OnlyTheTakenPacketLeaves(w, s, start);
        StartMakesTopRun(w, s, m, y);
      }
    }
  }

  lemma StartMakesTopRun(w: World, s: Step, m: NodeId, y: NodeId)
    requires AgreeInv(w, m) && Enabled(w, s) && IsLive(w, y) && y != m
    requires s.Deliver? && s.packet == Packet(y, m, Start(y, PriorityFromId(y)))
    ensures Runs(Apply(w, s), m) || Leads(Apply(w, s), m)
  {
  }

  lemma AgreeInvKept(w: World, s: Step, m: NodeId)
    requires AgreeInv(w, m) && Enabled(w, s) && !s.Crash?
    ensures AgreeInv(Apply(w, s), m) && Apply(w, s).live == w.live && Apply(w, s).nodes.Keys == w.nodes.Keys
  {
    var w' := Apply(w, s);
    InvKept(w, s);
    WellFormedKept(w, s);
    TopStaysLeader(w, s, m);
    forall n | IsLive(w, n)
      ensures (Leads(w', n) ==> n == m) && KnowsNoRival(w', n, m)
    {
      OnlyTopIsKnown(w, s, m, n);
    }
    forall p | p in w'.net && p.to in w'.live
      ensures p.from in w'.live && (p.msg.Victory? ==> p.from == m)
    {
      OnlyTopAnnounces(w, s, m, p);
    }
    forall y | IsLive(w', y) && y != m && Leads(w', m)
      ensures WillFollow(w', y, m)
    {
      WillFollowKept(w, s, m, y);
    }
    forall y | y != m && Runs(w', y)
      ensures StartInFlight(w', y, m) || Runs(w', m) || Leads(w', m)
    {
      RunnerReachesTop(w, s, m, y);
    }
  }

  lemma {:induction false} RunKeepsAgreeInv(w: World, steps: seq<Step>, w': World, m: NodeId)
    requires AgreeInv(w, m) && Crashless(steps) && Run(w, steps, w')
    ensures AgreeInv(w', m) && (Leads(w, m) ==> Leads(w', m))
    ensures w'.live == w.live && w'.nodes.Keys == w.nodes.Keys
    decreases |steps|
  {
    if steps != [] {
      AgreeInvKept(w, steps[0], m);
      TopStaysLeader(w, steps[0], m);
      RunKeepsAgreeInv(Apply(w, steps[0]), steps[1..], w', m);
    }
  }

  lemma FreshAgreeInv(w: World, m: NodeId)
    requires FreshStart(w) && Top(w, m)
    ensures AgreeInv(w, m)
  {
  }

  // ----- main results -----

  /** Only the top node ever leads, and every other node follows it or is about to hear from it. */
  lemma Agreement(w: World, steps: seq<Step>, w': World, m: NodeId)
    requires FreshStart(w) && Top(w, m) && Crashless(steps) && Run(w, steps, w')
    ensures w'.live == w'.nodes.Keys
    ensures forall x :: Leads(w', x) ==> x == m && forall y :: y in w'.nodes && y != m ==> WillFollow(w', y, m)
  {
    FreshAgreeInv(w, m);
    RunKeepsAgreeInv(w, steps, w', m);
  }

  /** Once it leads, it leads for the rest of the run. */
  lemma LeaderIsStable(w: World, steps: seq<Step>, w': World, more: seq<Step>, w'': World, x: NodeId, m: NodeId)
    requires FreshStart(w) && Top(w, m) && Crashless(steps) && Crashless(more)
    requires Run(w, steps, w') && Run(w', more, w'') && Leads(w', x)
    ensures Leads(w'', x)
  {
    FreshAgreeInv(w, m);
    RunKeepsAgreeInv(w, steps, w', m);
    RunKeepsAgreeInv(w', more, w'', m);
  }

  /** With a leader and nothing in flight, every node names the top node and only it leads. */
  lemma QuiescentAgreement(w: World, steps: seq<Step>, w': World, x: NodeId, m: NodeId)
    requires FreshStart(w) && Top(w, m) && Crashless(steps) && Run(w, steps, w')
    requires Leads(w', x) && w'.net == multiset{}
    ensures x == m && w'.live == w'.nodes.Keys && AllFollow(w', m)
  {
    FreshAgreeInv(w, m);
    RunKeepsAgreeInv(w, steps, w', m);
    QuiescentFollow(w', m);
  }

  /** Every live node names `m`, and only `m` leads. */
  ghost predicate AllFollow(w: World, m: NodeId) {
    forall y :: IsLive(w, y) ==> w.nodes[y].leader == Some(m) && w.nodes[y].role == if y == m then Leader else Follower
  }

  lemma QuiescentFollow(w: World, m: NodeId)
    requires AgreeInv(w, m) && Leads(w, m) && w.net == multiset{}
    ensures AllFollow(w, m)
  {
    forall y | IsLive(w, y) && y != m
      ensures Follows(w, y, m)
    {
      assert WillFollow(w, y, m);
    }
  }
}
