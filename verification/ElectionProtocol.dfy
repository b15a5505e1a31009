/**
 The election among a fixed set of nodes. A world holds every node's election state, the
 nodes that have not crashed and the bag of packets in flight; packets may be delivered in
 any order. A node's timeout may fire at any moment once its own Start/Alive round trip has
 drained; module ElectionTiming derives that from a bound on message delay.
 */
module ElectionProtocol {
  import opened Common
  import opened Election

  datatype Packet = Packet(from: NodeId, to: NodeId, msg: Msg)

  datatype World = World(nodes: map<NodeId, Election>, live: set<NodeId>, net: multiset<Packet>)

  /** `now` is the acting node's clock; nothing here relates one clock reading to another. */
  datatype Step =
    | Deliver(packet: Packet, now: nat)
    | Lose(packet: Packet)
    | CheckElection(node: NodeId, now: nat, electionTimeout: nat, victoryTimeout: nat)
    | NodeGone(node: NodeId, gone: NodeId, now: nat)
    | Join(node: NodeId, now: nat)
    | Crash(node: NodeId)

  predicate Reaches(self: NodeId, s: Send, peer: NodeId) {
    match s
    case To(p, _) => peer == p
    case Broadcast(_, exclude) => peer != self && exclude != Some(peer)
  }

  function Emitted(self: NodeId, members: set<NodeId>, sends: seq<Send>): set<Packet> {
    set s, peer | s in sends && peer in members && Reaches(self, s, peer) :: Packet(self, peer, s.msg)
  }

  function React(w: World, r: Reaction): World {
    w.(nodes := w.nodes[r.node.id := r.node],
       net := w.net + multiset(Emitted(r.node.id, w.nodes.Keys, r.sends)))
  }

  function Take(w: World, p: Packet): World { w.(net := w.net - multiset{p}) }

  /** No Start of `n` to a live node and no live node's Alive to `n` is in flight. */
  ghost predicate Drained(w: World, n: NodeId)
    requires n in w.nodes
  {
    forall h :: h in w.live ==>
      Packet(n, h, w.nodes[n].StartMsg()) !in w.net && Packet(h, n, Alive(h)) !in w.net
  }

  predicate DeclaresVictory(e: Election, s: Step)
    requires s.CheckElection?
  {
    var m := e.CheckTimeout(s.now, s.electionTimeout, s.victoryTimeout).1;
    m.Some? && m.value.Victory?
  }

  /** The step can be taken, leaving aside when a timeout may fire. */
  ghost predicate Possible(w: World, s: Step) {
    match s
    case Deliver(p, _) => p in w.net && p.to in w.live && p.to in w.nodes
    case Lose(p) => p in w.net && p.to !in w.live
    case CheckElection(n, _, _, _) => n in w.live && n in w.nodes
    case NodeGone(n, gone, _) => n in w.live && n in w.nodes && gone != n
    case Join(n, _) => n in w.live && n in w.nodes && w.nodes[n].role != Leader
    case Crash(n) => n in w.live
  }

  ghost predicate Enabled(w: World, s: Step) {
    Possible(w, s) && (s.CheckElection? && DeclaresVictory(w.nodes[s.node], s) ==> Drained(w, s.node))
  }

  ghost function Apply(w: World, s: Step): World
    requires Possible(w, s)
  {
    match s
    case Deliver(p, now) => React(Take(w, p), OnMessage(w.nodes[p.to], p.from, p.msg, now))
    case Lose(p) => Take(w, p)
    case CheckElection(n, now, et, vt) => React(w, OnCheckElection(w.nodes[n], now, et, vt))
    case NodeGone(n, gone, now) => React(w, OnNodeGone(w.nodes[n], gone, now))
    case Join(n, now) => React(w, OnJoin(w.nodes[n], now))
    case Crash(n) => w.(live := w.live - {n})
  }

  ghost predicate Run(w: World, steps: seq<Step>, w': World)
    decreases |steps|
  {
    if steps == [] then w' == w
    else Enabled(w, steps[0]) && Run(Apply(w, steps[0]), steps[1..], w')
  }

  predicate IsLive(w: World, n: NodeId) { n in w.live && n in w.nodes }

  predicate Leads(w: World, n: NodeId) { IsLive(w, n) && w.nodes[n].role == Leader }

  predicate Runs(w: World, n: NodeId) { IsLive(w, n) && w.nodes[n].role == Candidate }

  /** Nobody runs, nothing is in flight, and at most one node was bootstrapped as leader. */
  ghost predicate Initial(w: World) {
    && w.live == w.nodes.Keys && w.net == multiset{}
    && (forall n :: n in w.nodes ==> w.nodes[n].id == n && w.nodes[n].role != Candidate)
    && (forall n :: Leads(w, n) ==> w.nodes[n].leader == Some(n))
    && AtMostOneLeader(w)
  }

  ghost predicate AtMostOneLeader(w: World) {
    forall a, b :: Leads(w, a) && Leads(w, b) ==> a == b
  }

  ghost predicate LeaderOutranks(w: World) {
    forall a, b :: Leads(w, a) && IsLive(w, b) ==> PriorityFromId(b) <= PriorityFromId(a)
  }

  // ----- the inductive invariant -----

  ghost predicate GoodPacket(w: World, p: Packet) {
    && p.from in w.nodes && p.to in w.nodes && p.from != p.to
    && match p.msg
       case Start(c, priority) => c == p.from && priority == PriorityFromId(c)
       case Alive(n) => n == p.from && PriorityFromId(p.from) > PriorityFromId(p.to)
       case Victory(m) => m == p.from
  }

  predicate StartInFlight(w: World, from: NodeId, to: NodeId) {
    Packet(from, to, Start(from, PriorityFromId(from))) in w.net
  }

  predicate AliveInFlight(w: World, from: NodeId, to: NodeId) { Packet(from, to, Alive(from)) in w.net }

  ghost predicate WellFormed(w: World) {
    && w.live <= w.nodes.Keys
    && (forall n :: n in w.nodes ==> w.nodes[n].id == n)
    && (forall p :: p in w.net ==> GoodPacket(w, p))
  }

  /** What holds between two distinct live nodes, `b` ranking at least as high as `a`. */
  ghost predicate Pairwise(w: World, a: NodeId, b: NodeId)
    requires a in w.nodes && b in w.nodes
  {
    var equal := PriorityFromId(a) == PriorityFromId(b);
    // a candidate that heard nothing still waits on every live higher node
    && (Runs(w, a) && !w.nodes[a].receivedAlive && !equal ==> StartInFlight(w, a, b) || AliveInFlight(w, b, a))
    // a leader challenged from above, or by an equal, is about to learn of it
    && (Leads(w, a) && Runs(w, b) ==> StartInFlight(w, b, a))
    // two equal candidates: one is about to step down
    && (Runs(w, a) && Runs(w, b) && equal ==> StartInFlight(w, a, b) || StartInFlight(w, b, a))
  }

  ghost predicate Inv(w: World) {
    && WellFormed(w)
    && AtMostOneLeader(w)
    && (forall n :: Leads(w, n) ==> w.nodes[n].leader == Some(n))
    && (forall n :: Runs(w, n) ==> w.nodes[n].startedAt.Some?)
    && (forall n, m :: Leads(w, n) && IsLive(w, m) ==> !StartInFlight(w, n, m))
    && (forall a, b :: IsLive(w, a) && IsLive(w, b) && a != b && PriorityFromId(a) <= PriorityFromId(b)
          ==> Pairwise(w, a, b))
  }

  /** Every message a reaction sends is correctly labelled, and none is addressed to its sender. */
  ghost predicate GoodSend(self: NodeId, s: Send) {
    && (s.To? ==> s.peer != self)
    && match s.msg
       case Start(c, priority) => c == self && priority == PriorityFromId(c)
       case Alive(n) => n == self && s.To? && PriorityFromId(self) > PriorityFromId(s.peer)
       case Victory(m) => m == self
  }

  lemma ReactWellFormed(w: World, r: Reaction)
    requires WellFormed(w) && r.node.id in w.nodes && forall s :: s in r.sends ==> GoodSend(r.node.id, s)
    ensures WellFormed(React(w, r)) && React(w, r).nodes.Keys == w.nodes.Keys
  {
    var w' := React(w, r);
    assert w'.nodes.Keys == w.nodes.Keys;
    forall p | p in w'.net
      ensures GoodPacket(w', p)
    {
      if p !in w.net {
        var s :| s in r.sends && Reaches(r.node.id, s, p.to) && s.msg == p.msg;
        assert GoodSend(r.node.id, s);
      } else {
        assert GoodPacket(w, p);
      }
    }
  }

  lemma TakeWellFormed(w: World, p: Packet)
    requires WellFormed(w)
    ensures WellFormed(Take(w, p))
  {
    forall q | q in Take(w, p).net
      ensures GoodPacket(Take(w, p), q)
    {
      assert GoodPacket(w, q);
    }
  }

  /** An acting node's step is a reaction in the world without the packet it consumes. */
  predicate Acts(s: Step) { !s.Lose? && !s.Crash? }

  ghost function Before(w: World, s: Step): World { if s.Deliver? then Take(w, s.packet) else w }

  ghost function ReactionTo(w: World, s: Step): Reaction
    requires Possible(w, s) && Acts(s)
  {
    match s
    case Deliver(p, now) => OnMessage(w.nodes[p.to], p.from, p.msg, now)
    case CheckElection(n, now, et, vt) => OnCheckElection(w.nodes[n], now, et, vt)
    case NodeGone(n, gone, now) => OnNodeGone(w.nodes[n], gone, now)
    case Join(n, now) => OnJoin(w.nodes[n], now)
  }

  /** Good sends; moreover only candidates send Starts and only leaders announce victory. */
  ghost predicate GoodReaction(self: NodeId, r: Reaction) {
    && r.node.id == self
    && forall x :: x in r.sends ==>
         GoodSend(self, x) && (x.msg.Start? ==> r.node.role == Candidate) && (x.msg.Victory? ==> r.node.role == Leader)
  }

  lemma MessageReactionGood(e: Election, from: NodeId, msg: Msg, now: nat)
    requires from != e.id && (msg.Start? ==> msg.priority == PriorityFromId(from))
    ensures GoodReaction(e.id, OnMessage(e, from, msg, now))
  {
  }

  lemma LocalReactionGood(e: Election, now: nat, gone: NodeId, et: nat, vt: nat)
    ensures GoodReaction(e.id, OnCheckElection(e, now, et, vt))
    ensures GoodReaction(e.id, OnNodeGone(e, gone, now)) && GoodReaction(e.id, OnJoin(e, now))
  {
  }

  lemma ReactionGood(w: World, s: Step)
    requires WellFormed(w) && Possible(w, s) && Acts(s)
    ensures Apply(w, s) == React(Before(w, s), ReactionTo(w, s))
    ensures ReactionTo(w, s).node.id in w.nodes
    ensures GoodReaction(ReactionTo(w, s).node.id, ReactionTo(w, s))
  {
    match s
    case Deliver(p, now) =>
      assert GoodPacket(w, p);
      MessageReactionGood(w.nodes[p.to], p.from, p.msg, now);
    case CheckElection(n, now, et, vt) => LocalReactionGood(w.nodes[n], now, n, et, vt);
    case NodeGone(n, gone, now) => LocalReactionGood(w.nodes[n], now, gone, 0, 0);
    case Join(n, now) => LocalReactionGood(w.nodes[n], now, n, 0, 0);
  }

  lemma WellFormedKept(w: World, s: Step)
    requires WellFormed(w) && Possible(w, s)
    ensures WellFormed(Apply(w, s)) && Apply(w, s).nodes.Keys == w.nodes.Keys
  {
    if s.Lose? {
      TakeWellFormed(w, s.packet);
    } else if s.Crash? {
      forall p | p in w.net
        ensures GoodPacket(Apply(w, s), p)
      {
        assert GoodPacket(w, p);
      }
    } else {
      if s.Deliver? {
        TakeWellFormed(w, s.packet);
      }
      ReactionGood(w, s);
      ReactWellFormed(Before(w, s), ReactionTo(w, s));
    }
  }

  /** A candidate whose round trip drained in silence has no live superior and no live rival leader. */
  lemma VictoryUnchallenged(w: World, n: NodeId, b: NodeId)
    requires Inv(w) && Runs(w, n) && !w.nodes[n].receivedAlive && Drained(w, n) && IsLive(w, b) && b != n
    ensures PriorityFromId(b) <= PriorityFromId(n) && !Leads(w, b)
  {
    assert PriorityFromId(b) > PriorityFromId(n) ==> Pairwise(w, n, b);
    assert PriorityFromId(b) <= PriorityFromId(n) ==> Pairwise(w, b, n);
  }

  /** A node only ever becomes leader by an unchallenged victory. */
  lemma NewLeader(w: World, s: Step, n: NodeId)
    requires Inv(w) && Enabled(w, s) && Leads(Apply(w, s), n) && !Leads(w, n)
    ensures s.CheckElection? && s.node == n && Runs(w, n) && !w.nodes[n].receivedAlive && Drained(w, n)
    ensures forall b :: IsLive(w, b) && b != n ==> PriorityFromId(b) <= PriorityFromId(n) && !Leads(w, b)
  {
    assert s.Deliver? ==> GoodPacket(w, s.packet);
    forall b | IsLive(w, b) && b != n
      ensures PriorityFromId(b) <= PriorityFromId(n) && !Leads(w, b)
    {
      VictoryUnchallenged(w, n, b);
    }
  }

  /** Whoever sends a Start is a candidate afterwards. */
  lemma NewStart(w: World, s: Step, n: NodeId, m: NodeId)
    requires WellFormed(w) && Possible(w, s) && n in w.nodes
    requires StartInFlight(Apply(w, s), n, m) && !StartInFlight(w, n, m)
    ensures Apply(w, s).nodes[n].role == Candidate
  {
    if Acts(s) {
      ReactionGood(w, s);
    }
  }

  lemma LeaderKnowsItself(w: World, s: Step, n: NodeId)
    requires Inv(w) && Enabled(w, s) && Leads(Apply(w, s), n)
    ensures Apply(w, s).nodes[n].leader == Some(n)
  {
    if !Leads(w, n) {
      NewLeader(w, s, n);
    }
  }

  lemma LeaderIsSilent(w: World, s: Step, n: NodeId, m: NodeId)
    requires Inv(w) && Enabled(w, s) && Leads(Apply(w, s), n) && IsLive(Apply(w, s), m)
    ensures !StartInFlight(Apply(w, s), n, m)
  {
    WellFormedKept(w, s);
    if StartInFlight(Apply(w, s), n, m) {
      if !StartInFlight(w, n, m) {
        NewStart(w, s, n, m);
      } else if !Leads(w, n) {
        NewLeader(w, s, n);
      }
    }
  }

  lemma OneLeaderKept(w: World, s: Step)
    requires Inv(w) && Enabled(w, s)
    ensures AtMostOneLeader(Apply(w, s))
  {
    forall a, b | Leads(Apply(w, s), a) && Leads(Apply(w, s), b)
      ensures a == b
    {
      if !Leads(w, a) {
        NewLeader(w, s, a);
      }
      if !Leads(w, b) {
        NewLeader(w, s, b);
      }
    }
  }

  lemma SendArrives(w: World, s: Step, x: Send, peer: NodeId)
    requires WellFormed(w) && Possible(w, s) && Acts(s) && peer in w.nodes
    requires x in ReactionTo(w, s).sends && Reaches(ReactionTo(w, s).node.id, x, peer)
    ensures Packet(ReactionTo(w, s).node.id, peer, x.msg) in Apply(w, s).net
  {
    ReactionGood(w, s);
    var r := ReactionTo(w, s);
    assert Packet(r.node.id, peer, x.msg) in Emitted(r.node.id, w.nodes.Keys, r.sends);
  }

  /** `e` starts or restarts running as it becomes `e'`. */
  predicate Campaigns(e: Election, e': Election) {
    e'.role == Candidate && !e'.receivedAlive && (e.role != Candidate || e.receivedAlive)
  }

  /** A reaction that campaigns broadcasts a Start, sparing at most the peer whose Start it answers. */
  lemma CampaignBroadcasts(w: World, s: Step) returns (x: Send)
    requires WellFormed(w) && Possible(w, s) && Acts(s)
    requires Campaigns(w.nodes[ReactionTo(w, s).node.id], ReactionTo(w, s).node)
    ensures x in ReactionTo(w, s).sends && x.Broadcast? && x.msg == ReactionTo(w, s).node.StartMsg()
    ensures x.exclude.Some? ==>
              && s.Deliver? && s.packet.msg.Start? && x.exclude.value == s.packet.from
              && s.packet.msg.priority < PriorityFromId(ReactionTo(w, s).node.id)
  {
    assert s.Deliver? ==> GoodPacket(w, s.packet);
    var r := ReactionTo(w, s);
    x := r.sends[|r.sends| - 1];
  }

  /** So it puts a Start in flight to every leader and to every node it does not outrank. */
  lemma NewRun(w: World, s: Step, n: NodeId, m: NodeId)
    requires Inv(w) && Enabled(w, s) && IsLive(w, n) && IsLive(w, m) && n != m
    requires n in Apply(w, s).nodes && Campaigns(w.nodes[n], Apply(w, s).nodes[n])
    requires Leads(w, m) || PriorityFromId(n) <= PriorityFromId(m)
    ensures StartInFlight(Apply(w, s), n, m)
  {
    ActorCampaigns(w, s, n);
    ReactionGood(w, s);
    var x := CampaignBroadcasts(w, s);
    assert s.Deliver? ==> GoodPacket(w, s.packet);
    assert Leads(w, m) ==> !StartInFlight(w, m, n);
    SendArrives(w, s, x, m);
  }

  lemma ActorCampaigns(w: World, s: Step, n: NodeId)
    requires WellFormed(w) && Possible(w, s) && n in w.nodes && n in Apply(w, s).nodes
    requires Campaigns(w.nodes[n], Apply(w, s).nodes[n])
    ensures Acts(s) && ReactionTo(w, s).node.id == n && ReactionTo(w, s).node == Apply(w, s).nodes[n]
  {
    if Acts(s) {
      ReactionGood(w, s);
    }
  }

  lemma OnlyTheTakenPacketLeaves(w: World, s: Step, p: Packet)
    requires Possible(w, s) && p in w.net && p !in Apply(w, s).net
    ensures (s.Deliver? || s.Lose?) && s.packet == p
  {
  }

  /** A Start that reaches a higher node is answered with Alive. */
  lemma HigherAnswers(w: World, s: Step, a: NodeId, b: NodeId)
    requires WellFormed(w) && Possible(w, s) && IsLive(w, a) && IsLive(w, b)
    requires s.Deliver? && s.packet == Packet(a, b, Start(a, PriorityFromId(a)))
    ensures PriorityFromId(a) < PriorityFromId(b) ==> AliveInFlight(Apply(w, s), b, a)
    ensures PriorityFromId(a) >= PriorityFromId(b) ==> Apply(w, s).nodes[b].role == Follower
  {
    ReactionGood(w, s);
    var r := ReactionTo(w, s);
    if PriorityFromId(a) < PriorityFromId(b) {
      var x := To(a, Alive(b));
      assert x == r.sends[0];
      SendArrives(w, s, x, a);
    }
  }

  lemma CandidateReaction(w: World, s: Step)
    requires WellFormed(w) && Possible(w, s) && Acts(s) && ReactionTo(w, s).node.role == Candidate
    ensures var e := w.nodes[ReactionTo(w, s).node.id]; e.role == Candidate || Campaigns(e, ReactionTo(w, s).node)
    ensures var e := w.nodes[ReactionTo(w, s).node.id];
            (e.role == Candidate ==> e.startedAt.Some?) ==> ReactionTo(w, s).node.startedAt.Some?
  {
    assert s.Deliver? ==> GoodPacket(w, s.packet);
  }

  lemma RanBefore(w: World, s: Step, n: NodeId)
    requires WellFormed(w) && Possible(w, s) && IsLive(w, n) && Runs(Apply(w, s), n)
    ensures Runs(w, n) || Campaigns(w.nodes[n], Apply(w, s).nodes[n])
  {
    if Acts(s) {
      ReactionGood(w, s);
      if ReactionTo(w, s).node.id == n {
        CandidateReaction(w, s);
      }
    }
  }

  lemma SilentCandidateKept(w: World, s: Step, a: NodeId, b: NodeId)
    requires Inv(w) && Enabled(w, s) && IsLive(w, a) && IsLive(w, b) && a != b
    requires PriorityFromId(a) < PriorityFromId(b)
    requires Runs(Apply(w, s), a) && !Apply(w, s).nodes[a].receivedAlive
    ensures StartInFlight(Apply(w, s), a, b) || AliveInFlight(Apply(w, s), b, a)
  {
    if Campaigns(w.nodes[a], Apply(w, s).nodes[a]) {
      NewRun(w, s, a, b);
    } else {
      assert Pairwise(w, a, b);
      var start, alive := Packet(a, b, Start(a, PriorityFromId(a))), Packet(b, a, Alive(b));
      if start in w.net && start !in Apply(w, s).net {
        OnlyTheTakenPacketLeaves(w, s, start);
        HigherAnswers(w, s, a, b);
      } else if alive in w.net && alive !in Apply(w, s).net {
        OnlyTheTakenPacketLeaves(w, s, alive);
      }
    }
  }

  lemma ChallengeKept(w: World, s: Step, a: NodeId, b: NodeId)
    requires Inv(w) && Enabled(w, s) && IsLive(w, a) && IsLive(w, b) && a != b
    requires PriorityFromId(a) <= PriorityFromId(b)
    requires Leads(Apply(w, s), a) && Runs(Apply(w, s), b)
    ensures StartInFlight(Apply(w, s), b, a)
  {
    assert Pairwise(w, a, b);
    if !Leads(w, a) {
      NewLeader(w, s, a);
    } else if Campaigns(w.nodes[b], Apply(w, s).nodes[b]) {
      NewRun(w, s, b, a);
    } else {
      RanBefore(w, s, b);
      var start := Packet(b, a, Start(b, PriorityFromId(b)));
      if start in w.net && start !in Apply(w, s).net {
        OnlyTheTakenPacketLeaves(w, s, start);
        HigherAnswers(w, s, b, a);
      }
    }
  }

  lemma EqualRivalsKept(w: World, s: Step, a: NodeId, b: NodeId)
    requires Inv(w) && Enabled(w, s) && IsLive(w, a) && IsLive(w, b) && a != b
    requires PriorityFromId(a) == PriorityFromId(b)
    requires Runs(Apply(w, s), a) && Runs(Apply(w, s), b)
    ensures StartInFlight(Apply(w, s), a, b) || StartInFlight(Apply(w, s), b, a)
  {
    if Campaigns(w.nodes[a], Apply(w, s).nodes[a]) {
      NewRun(w, s, a, b);
    } else if Campaigns(w.nodes[b], Apply(w, s).nodes[b]) {
      NewRun(w, s, b, a);
    } else {
      RanBefore(w, s, a);
      RanBefore(w, s, b);
      assert Pairwise(w, a, b);
      var p, q := Packet(a, b, Start(a, PriorityFromId(a))), Packet(b, a, Start(b, PriorityFromId(b)));
      if p in w.net && p !in Apply(w, s).net {
        OnlyTheTakenPacketLeaves(w, s, p);
        HigherAnswers(w, s, a, b);
      } else if q in w.net && q !in Apply(w, s).net {
        OnlyTheTakenPacketLeaves(w, s, q);
        HigherAnswers(w, s, b, a);
      }
    }
  }

  lemma PairwiseKept(w: World, s: Step, a: NodeId, b: NodeId)
    requires Inv(w) && Enabled(w, s) && IsLive(w, a) && IsLive(w, b) && a != b
    requires PriorityFromId(a) <= PriorityFromId(b)
    ensures Pairwise(Apply(w, s), a, b)
  {
    WellFormedKept(w, s);
    var w' := Apply(w, s);
    if Runs(w', a) && !w'.nodes[a].receivedAlive && PriorityFromId(a) < PriorityFromId(b) {
      SilentCandidateKept(w, s, a, b);
    }
    if Leads(w', a) && Runs(w', b) {
      ChallengeKept(w, s, a, b);
    }
    if Runs(w', a) && Runs(w', b) && PriorityFromId(a) == PriorityFromId(b) {
      EqualRivalsKept(w, s, a, b);
    }
  }

  lemma RunIsTimed(w: World, s: Step, n: NodeId)
    requires Inv(w) && Enabled(w, s) && IsLive(w, n) && Runs(Apply(w, s), n)
    ensures Apply(w, s).nodes[n].startedAt.Some?
  {
    if Acts(s) {
      ReactionGood(w, s);
      assert Runs(w, n) ==> w.nodes[n].startedAt.Some?;
      if ReactionTo(w, s).node.id == n {
        CandidateReaction(w, s);
      }
    }
  }

  lemma InvKept(w: World, s: Step)
    requires Inv(w) && Enabled(w, s)
    ensures Inv(Apply(w, s))
  {
    WellFormedKept(w, s);
    OneLeaderKept(w, s);
    var w' := Apply(w, s);
    assert w'.live <= w.live;
    forall n | Leads(w', n)
      ensures w'.nodes[n].leader == Some(n)
    {
      LeaderKnowsItself(w, s, n);
    }
    forall n | Runs(w', n)
      ensures w'.nodes[n].startedAt.Some?
    {
      RunIsTimed(w, s, n);
    }
    forall n, m | Leads(w', n) && IsLive(w', m)
      ensures !StartInFlight(w', n, m)
    {
      LeaderIsSilent(w, s, n, m);
    }
    forall a, b | IsLive(w', a) && IsLive(w', b) && a != b && PriorityFromId(a) <= PriorityFromId(b)
      ensures Pairwise(w', a, b)
    {
      PairwiseKept(w, s, a, b);
    }
  }

  lemma RunKeepsInv(w: World, steps: seq<Step>, w': World)
    requires Inv(w) && Run(w, steps, w')
    ensures Inv(w')
    decreases |steps|
  {
    if steps != [] {
      InvKept(w, steps[0]);
      RunKeepsInv(Apply(w, steps[0]), steps[1..], w');
    }
  }

  lemma OutranksKept(w: World, steps: seq<Step>, w': World)
    requires Inv(w) && LeaderOutranks(w) && Run(w, steps, w')
    ensures LeaderOutranks(w')
    decreases |steps|
  {
    if steps != [] {
      var next := Apply(w, steps[0]);
      InvKept(w, steps[0]);
      forall a, b | Leads(next, a) && IsLive(next, b)
        ensures PriorityFromId(b) <= PriorityFromId(a)
      {
        if !Leads(w, a) {
          NewLeader(w, steps[0], a);
        }
      }
      OutranksKept(next, steps[1..], w');
    }
  }

  // ----- main results -----

  /**
   Safety. In every run from an initial world, through any crashes, suspicions, joins and
   message orders, two live nodes never lead at once. Priorities may coincide, and the
   bootstrapped leader may rank anywhere.
   */
  lemma OneLeader(w: World, steps: seq<Step>, w': World)
    requires Initial(w) && Run(w, steps, w')
    ensures AtMostOneLeader(w')
  {
    assert Inv(w);
    RunKeepsInv(w, steps, w');
  }

  /** A live leader outranks every live node, unless it was bootstrapped over a higher one. */
  lemma LeaderIsHighest(w: World, steps: seq<Step>, w': World)
    requires Initial(w) && LeaderOutranks(w) && Run(w, steps, w')
    ensures LeaderOutranks(w')
  {
    assert Inv(w);
    OutranksKept(w, steps, w');
  }
}
