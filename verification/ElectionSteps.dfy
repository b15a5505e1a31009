/**
 What each event of the election does to the node and to the network, in terms of the node's
 fields and of the packets in flight (cluster/src/election.rs, cluster/src/main.rs).
 */
module ElectionSteps {
  import opened Common
  import opened Election
  import opened ElectionProtocol

  /** A candidate since `now` that has heard nothing yet and names no leader. */
  predicate JustStarted(e: Election, now: nat) {
    && e.role == Candidate && e.startedAt == Some(now) && e.leader == None
    && !e.receivedAlive && e.aliveAt == None
  }

  /** Node `n` has just started an election, and everybody else but `skipped` is about to hear of it. */
  ghost predicate StartsRunning(w: World, n: NodeId, now: nat, skipped: Option<NodeId>) {
    && n in w.nodes && JustStarted(w.nodes[n], now)
    && forall h :: h in w.nodes && h != n && skipped != Some(h) ==> Packet(n, h, Start(n, n.hi)) in w.net
  }

  /** Nobody but `n` changed, and nothing in flight went missing but `taken`. */
  ghost predicate OnlyTouches(w: World, w': World, n: NodeId, taken: multiset<Packet>) {
    && w'.live == w.live && w'.nodes.Keys == w.nodes.Keys
    && (forall h :: h in w.nodes && h != n ==> w'.nodes[h] == w.nodes[h])
    && w.net - taken <= w'.net
  }

  lemma ReactTouches(w: World, s: Step)
    requires WellFormed(w) && Possible(w, s) && Acts(s)
    ensures OnlyTouches(w, Apply(w, s), ReactionTo(w, s).node.id, if s.Deliver? then multiset{s.packet} else multiset{})
  {
    ReactionGood(w, s);
  }

  lemma BroadcastArrives(w: World, s: Step, msg: Msg, skipped: Option<NodeId>)
    requires WellFormed(w) && Possible(w, s) && Acts(s) && Broadcast(msg, skipped) in ReactionTo(w, s).sends
    ensures var n := ReactionTo(w, s).node.id;
            forall h :: h in w.nodes && h != n && skipped != Some(h) ==> Packet(n, h, msg) in Apply(w, s).net
  {
    ReactionGood(w, s);
    var n := ReactionTo(w, s).node.id;
    forall h | h in w.nodes && h != n && skipped != Some(h)
      ensures Packet(n, h, msg) in Apply(w, s).net
    {
      assert Reaches(n, Broadcast(msg, skipped), h);
      assert Packet(n, h, msg) in Emitted(n, w.nodes.Keys, ReactionTo(w, s).sends);
    }
  }

  lemma NothingSent(w: World, n: NodeId, e: Election)
    requires n in w.nodes && e.id == n
    ensures React(w, Reaction(e, [])) == w.(nodes := w.nodes[n := e])
  {
    assert Emitted(n, w.nodes.Keys, []) == {};
  }

  /**
   The loss of a node makes exactly those run who followed it: they start an election at once
   and everybody hears of it. To all others nothing happens.
   */
  lemma LossOfLeader(w: World, n: NodeId, gone: NodeId, now: nat)
    requires WellFormed(w) && Possible(w, NodeGone(n, gone, now))
    ensures var w' := Apply(w, NodeGone(n, gone, now));
            if w.nodes[n].leader == Some(gone)
            then StartsRunning(w', n, now, None) && OnlyTouches(w, w', n, multiset{})
            else w' == w
  {
    var s := NodeGone(n, gone, now);
    ReactionGood(w, s);
    if w.nodes[n].leader == Some(gone) {
      assert ReactionTo(w, s).sends[0] == Broadcast(Start(n, n.hi), None);
      BroadcastArrives(w, s, Start(n, n.hi), None);
      ReactTouches(w, s);
    } else {
      NothingSent(w, n, w.nodes[n]);
      assert w.nodes[n := w.nodes[n]] == w.nodes;
    }
  }

  /** Whoever joins starts an election. */
  lemma JoiningRuns(w: World, n: NodeId, now: nat)
    requires WellFormed(w) && Possible(w, Join(n, now))
    ensures StartsRunning(Apply(w, Join(n, now)), n, now, None)
    ensures OnlyTouches(w, Apply(w, Join(n, now)), n, multiset{})
  {
    var s := Join(n, now);
    assert ReactionTo(w, s).sends[0] == Broadcast(Start(n, n.hi), None);
    BroadcastArrives(w, s, Start(n, n.hi), None);
    ReactTouches(w, s);
  }

  /**
   A timeout check: an unanswered candidate wins after the election timeout and tells everybody;
   an answered one starts again after the victory timeout; otherwise nothing happens.
   */
  lemma TimeoutCheck(w: World, n: NodeId, now: nat, et: nat, vt: nat)
    requires WellFormed(w) && Possible(w, CheckElection(n, now, et, vt))
    ensures var (e, w') := (w.nodes[n], Apply(w, CheckElection(n, now, et, vt)));
            if e.role == Candidate && !e.receivedAlive && e.startedAt.Some? && now > e.startedAt.value + et then
              && OnlyTouches(w, w', n, multiset{})
              && w'.nodes[n].role == Leader && w'.nodes[n].leader == Some(n) && w'.nodes[n].startedAt == None
              && forall h :: h in w.nodes && h != n ==> Packet(n, h, Victory(n)) in w'.net
            else if e.role == Candidate && e.receivedAlive && e.aliveAt.Some? && now > e.aliveAt.value + vt then
              StartsRunning(w', n, now, None) && OnlyTouches(w, w', n, multiset{})
            else w' == w
  {
    var s, e := CheckElection(n, now, et, vt), w.nodes[n];
    ReactionGood(w, s);
    ReactTouches(w, s);
    if e.role == Candidate && !e.receivedAlive && e.startedAt.Some? && now > e.startedAt.value + et {
      assert ReactionTo(w, s).sends[0] == Broadcast(Victory(n), None);
      BroadcastArrives(w, s, Victory(n), None);
    } else if e.role == Candidate && e.receivedAlive && e.aliveAt.Some? && now > e.aliveAt.value + vt {
      assert ReactionTo(w, s).sends[0] == Broadcast(Start(n, n.hi), None);
      BroadcastArrives(w, s, Start(n, n.hi), None);
    } else {
      NothingSent(w, n, e);
      assert w.nodes[n := e] == w.nodes;
    }
  }

  /**
   A Start is answered exactly by higher nodes: a leader announces itself again to everybody,
   any other starts an election that everybody but the candidate hears of. A node that is not
   higher steps down without a word and keeps the leader it knew.
   */
  lemma StartHeard(w: World, p: Packet, now: nat)
    requires WellFormed(w) && Possible(w, Deliver(p, now)) && p.msg.Start?
    ensures var (n, c, w') := (p.to, p.from, Apply(w, Deliver(p, now)));
            var e := w.nodes[n];
            && OnlyTouches(w, w', n, multiset{p})
            && if n.hi > c.hi then
                 && Packet(n, c, Alive(n)) in w'.net
                 && if e.role == Leader
                    then w'.nodes[n] == e && forall h :: h in w.nodes && h != n ==> Packet(n, h, Victory(n)) in w'.net
                    else StartsRunning(w', n, now, Some(c))
               else
                 && w'.nodes[n] == e.(role := Follower, startedAt := None)
                 && w'.net == w.net - multiset{p}
  {
    var s, n, c := Deliver(p, now), p.to, p.from;
    assert GoodPacket(w, p);
    ReactionGood(w, s);
    ReactTouches(w, s);
    if n.hi > c.hi {
      var sends := ReactionTo(w, s).sends;
      assert sends[0] == To(c, Alive(n)) && Reaches(n, sends[0], c);
      assert Packet(n, c, Alive(n)) in Emitted(n, w.nodes.Keys, sends);
      if w.nodes[n].role == Leader {
        assert sends[1] == Broadcast(Victory(n), None);
        BroadcastArrives(w, s, Victory(n), None);
      } else {
        assert sends[1] == Broadcast(Start(n, n.hi), Some(c));
        BroadcastArrives(w, s, Start(n, n.hi), Some(c));
      }
    } else {
      NothingSent(Take(w, p), n, ReactionTo(w, s).node);
    }
  }

  /** An Alive holds the candidate back; a Victory makes its sender the leader. Neither is answered. */
  lemma AnswerHeard(w: World, p: Packet, now: nat)
    requires WellFormed(w) && Possible(w, Deliver(p, now)) && !p.msg.Start?
    ensures var (n, w') := (p.to, Apply(w, Deliver(p, now)));
            && OnlyTouches(w, w', n, multiset{p}) && w'.net == w.net - multiset{p}
            && (p.msg.Alive? ==> w'.nodes[n] == w.nodes[n].(receivedAlive := true, aliveAt := Some(now)))
            && (p.msg.Victory? ==>
                  && w'.nodes[n].role == Follower && w'.nodes[n].leader == Some(p.from)
                  && w'.nodes[n].startedAt == None && !w'.nodes[n].receivedAlive && w'.nodes[n].aliveAt == None)
  {
    assert GoodPacket(w, p);
    ReactionGood(w, Deliver(p, now));
    ReactTouches(w, Deliver(p, now));
    NothingSent(Take(w, p), p.to, ReactionTo(w, Deliver(p, now)).node);
  }

  /** A reset node is as good as new, and a bootstrapped one may stand in an initial world as its leader. */
  lemma ResetAndForce(e: Election)
    ensures e.Reset() == Fresh(e.id)
    ensures Initial(World(map[e.id := e.ForceLeader()], {e.id}, multiset{}))
    ensures Leads(World(map[e.id := e.ForceLeader()], {e.id}, multiset{}), e.id)
  {
  }
}
