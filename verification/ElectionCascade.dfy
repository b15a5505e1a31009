/**
 Termination. A delivered Start only ever provokes Starts from higher-ranking nodes, and
 Alive and Victory provoke nothing, so a rank-weighted count of the packets in flight falls
 with every delivery. Together with agreement this gives convergence.
 */
module ElectionCascade {
  import opened Common
  import Collections
  import opened Election
  import opened ElectionProtocol
  import opened ElectionAgreement

  function Pow(n: nat, k: nat): nat { if k == 0 then 1 else n * Pow(n, k - 1) }

  ghost function Superiors(members: set<NodeId>, n: NodeId): set<NodeId> {
    set h | h in members && PriorityFromId(h) > PriorityFromId(n)
  }

  /** With N members, a Start from a node with k superiors weighs N^(k+1); any other packet weighs 1. */
  ghost function Weight(members: set<NodeId>, p: Packet): nat {
    if p.msg.Start? then Pow(|members|, |Superiors(members, p.from)| + 1) else 1
  }

  ghost function Total(members: set<NodeId>, net: multiset<Packet>): nat {
    if net == multiset{} then 0
    else var p :| p in net; Weight(members, p) + Total(members, net - multiset{p})
  }

  ghost function Measure(w: World): nat { Total(w.nodes.Keys, w.net) }

  lemma {:induction false} TotalTake(members: set<NodeId>, net: multiset<Packet>, p: Packet)
    requires p in net
    ensures Total(members, net) == Weight(members, p) + Total(members, net - multiset{p})
    decreases |net|
  {
    var q :| q in net && Total(members, net) == Weight(members, q) + Total(members, net - multiset{q});
    if q != p {
      assert p in net - multiset{q} && q in net - multiset{p};
      TotalTake(members, net - multiset{q}, p);
      TotalTake(members, net - multiset{p}, q);
      assert net - multiset{q} - multiset{p} == net - multiset{p} - multiset{q};
    }
  }

  lemma MulSucc(a: nat, b: nat)
    ensures (a + 1) * b == a * b + b
  {
  }

  lemma {:induction false} TotalAdd(members: set<NodeId>, net: multiset<Packet>, added: set<Packet>, bound: nat)
    requires forall p :: p in added ==> Weight(members, p) <= bound
    ensures Total(members, net + multiset(added)) <= Total(members, net) + |added| * bound
    decreases |added|
  {
    if added == {} {
      assert net + multiset(added) == net;
    } else {
      var p :| p in added;
      TotalTake(members, net + multiset(added), p);
      assert net + multiset(added) - multiset{p} == net + multiset(added - {p});
      TotalAdd(members, net, added - {p}, bound);
      MulSucc(|added - {p}|, bound);
    }
  }

  lemma MulLe(a: nat, b: nat, c: nat)
    requires a <= b
    ensures a * c <= b * c
  {
    assert (b - a) * c == b * c - a * c;
  }

  lemma {:induction false} PowGrows(n: nat, j: nat, k: nat)
    requires n >= 1 && j <= k
    ensures 1 <= Pow(n, j) <= Pow(n, k)
    decreases k
  {
    if k > 0 {
      PowGrows(n, if j < k then j else j - 1, k - 1);
      MulLe(1, n, Pow(n, k - 1));
    }
  }

  /** One copy of `msg` to each of `peers`. */
  function Copies(from: NodeId, peers: set<NodeId>, msg: Msg): set<Packet> {
    set peer | peer in peers :: Packet(from, peer, msg)
  }

  lemma {:induction false} CopiesSize(from: NodeId, peers: set<NodeId>, msg: Msg)
    ensures |Copies(from, peers, msg)| == |peers|
    decreases |peers|
  {
    if peers != {} {
      var p :| p in peers;
      CopiesSize(from, peers - {p}, msg);
      assert Copies(from, peers, msg) == Copies(from, peers - {p}, msg) + {Packet(from, p, msg)};
    }
  }

  lemma FewerSuperiors(members: set<NodeId>, low: NodeId, high: NodeId)
    requires high in members && PriorityFromId(low) < PriorityFromId(high)
    ensures |Superiors(members, high)| < |Superiors(members, low)|
  {
    assert Superiors(members, high) <= Superiors(members, low) - {high};
    Collections.SubsetSize(Superiors(members, high), Superiors(members, low) - {high});
  }

  lemma TwoMembers(members: set<NodeId>, a: NodeId, b: NodeId)
    requires a in members && b in members && a != b
    ensures |members| >= 2
  {
    Collections.SubsetSize({a, b}, members);
  }

  lemma WeightDrops(n: nat, j: nat, k: nat, others: nat, bound: nat)
    requires n >= 2 && j < k && others <= n - 1 && (bound == 1 || bound == Pow(n, j + 1))
    ensures 1 + others * bound < Pow(n, k + 1)
  {
    var x := Pow(n, j + 1);
    PowGrows(n, 1, j + 1);
    PowGrows(n, j + 2, k + 1);
    assert Pow(n, 1) == n * Pow(n, 0) == n;
    MulLe(others, n - 1, bound);
    MulLe(bound, x, n - 1);
    assert n * x == (n - 1) * x + x;
  }

  /** The packets answering a Start: one Alive, and one broadcast to at most everybody else. */
  lemma AnswerShape(w: World, s: Step) returns (others: set<NodeId>, cast: Msg)
    requires WellFormed(w) && Enabled(w, s) && s.Deliver? && s.packet.msg.Start?
    requires s.packet.msg.priority < PriorityFromId(s.packet.to)
    ensures cast == Victory(s.packet.to) || cast == Start(s.packet.to, PriorityFromId(s.packet.to))
    ensures others <= w.nodes.Keys - {s.packet.to}
    ensures Emitted(s.packet.to, w.nodes.Keys, ReactionTo(w, s).sends)
         == {Packet(s.packet.to, s.packet.from, Alive(s.packet.to))} + Copies(s.packet.to, others, cast)
  {
    var q := s.packet.to;
    var x := ReactionTo(w, s).sends[1];
    assert GoodPacket(w, s.packet);
    cast := x.msg;
    others := set peer | peer in w.nodes.Keys && Reaches(q, x, peer);
  }

  lemma AnswerNet(w: World, s: Step) returns (others: set<NodeId>, cast: Msg)
    requires WellFormed(w) && Enabled(w, s) && s.Deliver? && s.packet.msg.Start?
    requires s.packet.msg.priority < PriorityFromId(s.packet.to)
    ensures cast == Victory(s.packet.to) || cast == Start(s.packet.to, PriorityFromId(s.packet.to))
    ensures others <= w.nodes.Keys - {s.packet.to}
    ensures Apply(w, s).net == w.net - multiset{s.packet}
              + multiset({Packet(s.packet.to, s.packet.from, Alive(s.packet.to))})
              + multiset(Copies(s.packet.to, others, cast))
  {
    ReactionGood(w, s);
    others, cast := AnswerShape(w, s);
    var alive, rest := {Packet(s.packet.to, s.packet.from, Alive(s.packet.to))}, Copies(s.packet.to, others, cast);
    assert alive !! rest;
    assert multiset(alive + rest) == multiset(alive) + multiset(rest);
  }

  /** What a Start leaves behind is lighter than the Start. */
  lemma AnswerIsLighter(w: World, s: Step)
    requires WellFormed(w) && Enabled(w, s) && s.Deliver? && s.packet.msg.Start?
    requires s.packet.msg.priority < PriorityFromId(s.packet.to)
    ensures Measure(Apply(w, s)) < Measure(w)
  {
    var p, members, net := s.packet, w.nodes.Keys, w.net - multiset{s.packet};
    assert GoodPacket(w, p);
    var others, cast := AnswerNet(w, s);
    WellFormedKept(w, s);
    TotalTake(members, w.net, p);
    var alive, rest := {Packet(p.to, p.from, Alive(p.to))}, Copies(p.to, others, cast);
    var bound := Weight(members, Packet(p.to, p.to, cast));
    TotalAdd(members, net, alive, 1);
    TotalAdd(members, net + multiset(alive), rest, bound);
    CopiesSize(p.to, others, cast);
    Collections.SubsetSize(others, members - {p.to});
    TwoMembers(members, p.from, p.to);
    FewerSuperiors(members, p.from, p.to);
    WeightDrops(|members|, |Superiors(members, p.to)|, |Superiors(members, p.from)|, |others|, bound);
  }

  // ----- main results -----

  /** Every delivery, and every packet lost to a crashed node, lowers the measure. */
  lemma DeliveryDecreases(w: World, s: Step)
    requires WellFormed(w) && Enabled(w, s) && (s.Deliver? || s.Lose?)
    ensures Measure(Apply(w, s)) < Measure(w)
  {
    if s.Deliver? && s.packet.msg.Start? && s.packet.msg.priority < PriorityFromId(s.packet.to) {
      AnswerIsLighter(w, s);
    } else {
      TotalTake(w.nodes.Keys, w.net, s.packet);
      assert GoodPacket(w, s.packet);
      PowGrows(|w.nodes.Keys|, 0, |Superiors(w.nodes.Keys, s.packet.from)| + 1) by {
        TwoMembers(w.nodes.Keys, s.packet.from, s.packet.to);
      }
      WellFormedKept(w, s);
      assert Apply(w, s).net == w.net - multiset{s.packet} by {
        if s.Deliver? {
          assert Emitted(s.packet.to, w.nodes.Keys, []) == {};
          assert w.net - multiset{s.packet} + multiset(Emitted(s.packet.to, w.nodes.Keys, [])) == w.net - multiset{s.packet};
        }
      }
    }
  }

  ghost predicate DeliveriesOnly(steps: seq<Step>) { forall s :: s in steps ==> s.Deliver? || s.Lose? }

  /** Between timeouts and new triggers, no run of deliveries is longer than the measure. */
  lemma {:induction false} CascadeTerminates(w: World, steps: seq<Step>, w': World)
    requires WellFormed(w) && DeliveriesOnly(steps) && Run(w, steps, w')
    ensures |steps| + Measure(w') <= Measure(w)
    decreases |steps|
  {
    if steps != [] {
      DeliveryDecreases(w, steps[0]);
      WellFormedKept(w, steps[0]);
      CascadeTerminates(Apply(w, steps[0]), steps[1..], w');
    }
  }

  /** As long as something is in flight, something can be delivered or is lost. */
  lemma DeliveryPossible(w: World, now: nat) returns (s: Step)
    requires WellFormed(w) && w.net != multiset{}
    ensures Enabled(w, s) && (s.Deliver? || s.Lose?)
  {
    var p :| p in w.net;
    assert GoodPacket(w, p);
    s := if p.to in w.live then Deliver(p, now) else Lose(p);
  }

  /**
   In a crash-free run, once nothing is in flight and somebody is running, the top node leads
   or its timeout may fire as soon as it expires.
   */
  lemma TopIsReady(w: World, steps: seq<Step>, w': World, m: NodeId, c: NodeId, now: nat, et: nat, vt: nat)
    requires FreshStart(w) && Top(w, m) && Crashless(steps) && Run(w, steps, w')
    requires w'.net == multiset{} && Runs(w', c) && !Leads(w', m)
    ensures Runs(w', m) && w'.nodes[m].startedAt.Some?
    ensures w'.nodes[m].startedAt.value + et < now ==>
              Enabled(w', CheckElection(m, now, et, vt)) && DeclaresVictory(w'.nodes[m], CheckElection(m, now, et, vt))
  {
    FreshAgreeInv(w, m);
    RunKeepsAgreeInv(w, steps, w', m);
  }

  /** The timeout of `m` fires and `m` declares victory. */
  ghost predicate Wins(w: World, m: NodeId, s: Step, w': World) {
    && s.CheckElection? && s.node == m && Enabled(w, s) && DeclaresVictory(w.nodes[m], s)
    && w' == Apply(w, s)
  }

  lemma VictoryLeads(w: World, m: NodeId, s: Step, w': World)
    requires AgreeInv(w, m) && Wins(w, m, s, w')
    ensures AgreeInv(w', m) && Leads(w', m)
  {
    AgreeInvKept(w, s, m);
  }

  lemma LeadSpreads(w: World, m: NodeId, more: seq<Step>, w': World)
    requires AgreeInv(w, m) && Leads(w, m) && DeliveriesOnly(more) && Run(w, more, w')
    ensures |more| + Measure(w') <= Measure(w)
    ensures w'.net == multiset{} ==> AllFollow(w', m)
  {
    CascadeTerminates(w, more, w');
    RunKeepsAgreeInv(w, more, w', m);
    if w'.net == multiset{} {
      QuiescentFollow(w', m);
    }
  }

  lemma ConvergesFrom(w: World, m: NodeId, s: Step, won: World, more: seq<Step>, w': World)
    requires AgreeInv(w, m) && Wins(w, m, s, won) && DeliveriesOnly(more) && Run(won, more, w')
    ensures |more| + Measure(w') <= Measure(won)
    ensures w'.net == multiset{} ==> AllFollow(w', m)
  {
    VictoryLeads(w, m, s, won);
    LeadSpreads(won, m, more, w');
  }

  /** After it fires, no more deliveries than the measure allows lead every node to follow it. */
  lemma Convergence(w: World, steps: seq<Step>, w': World, m: NodeId, s: Step, won: World, more: seq<Step>, w'': World)
    requires FreshStart(w) && Top(w, m) && Crashless(steps) && Run(w, steps, w')
    requires Wins(w', m, s, won) && DeliveriesOnly(more) && Run(won, more, w'')
    ensures |more| + Measure(w'') <= Measure(won)
    ensures w''.net == multiset{} ==> AllFollow(w'', m)
  {
    FreshAgreeInv(w, m);
    RunKeepsAgreeInv(w, steps, w', m);
    ConvergesFrom(w', m, s, won, more, w'');
  }
}
