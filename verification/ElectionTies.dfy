/**
 Stable leadership needs a single highest priority: with a tie at the top, any fresh world of
 any size has a run without crashes in which a leader is unseated.
 */
module ElectionTies {
  import opened Common
  import opened Election
  import opened ElectionProtocol
  import opened ElectionAgreement
  import opened ElectionCascade
  import opened ElectionLimits

  /** Once a node leads it leads for the rest of any run without crashes. */
  ghost predicate LeadersStay(w: World) {
    forall steps, w', more, w'', x ::
      Crashless(steps) && Run(w, steps, w') && Leads(w', x) && Crashless(more) && Run(w', more, w'') ==> Leads(w'', x)
  }

  /** `a` and `b` share the highest priority. */
  ghost predicate Tied(w: World, a: NodeId, b: NodeId) {
    && a in w.nodes && b in w.nodes && a != b && PriorityFromId(a) == PriorityFromId(b)
    && forall n :: n in w.nodes ==> PriorityFromId(n) <= PriorityFromId(a)
  }

  lemma BroadcastCopies(from: NodeId, members: set<NodeId>, msg: Msg)
    ensures Emitted(from, members, [Broadcast(msg, None)]) == Copies(from, members - {from}, msg)
  {
    var sends := [Broadcast(msg, None)];
    forall p | p in Copies(from, members - {from}, msg)
      ensures p in Emitted(from, members, sends)
    {
      assert sends[0] in sends && Reaches(from, sends[0], p.to);
    }
  }

  /** The world in which `a` runs, its Starts are in flight to `waiting`, and nobody else moved. */
  ghost predicate Campaigning(w: World, a: NodeId, waiting: set<NodeId>) {
    && w.live == w.nodes.Keys && a in w.nodes && waiting <= w.nodes.Keys - {a}
    && w.nodes[a] == Fresh(a).StartElection(0)
    && (forall n :: n in w.nodes && n != a ==> w.nodes[n] == Fresh(n))
    && w.net == multiset(Copies(a, waiting, Fresh(a).StartMsg()))
  }

  /** A node that does not outrank the candidate hears its Start and does nothing. */
  lemma OneBacksOff(w: World, a: NodeId, waiting: set<NodeId>, n: NodeId) returns (d: Step)
    requires Campaigning(w, a, waiting) && n in waiting && PriorityFromId(n) <= PriorityFromId(a)
    ensures d.Deliver? && Enabled(w, d) && Campaigning(Apply(w, d), a, waiting - {n})
    ensures Apply(w, d).nodes == w.nodes
  {
    var msg := Fresh(a).StartMsg();
    var p := Packet(a, n, msg);
    d := Deliver(p, 1);
    assert p in Copies(a, waiting, msg);
    assert Emitted(n, w.nodes.Keys, []) == {};
    assert w.nodes[n := Fresh(n)] == w.nodes;
    assert Copies(a, waiting, msg) == Copies(a, waiting - {n}, msg) + {p};
    assert p !in Copies(a, waiting - {n}, msg);
  }

  lemma {:induction false} AllBackOff(w: World, a: NodeId, waiting: set<NodeId>) returns (steps: seq<Step>, w': World)
    requires Campaigning(w, a, waiting) && forall n :: n in w.nodes ==> PriorityFromId(n) <= PriorityFromId(a)
    ensures Crashless(steps) && Run(w, steps, w') && Campaigning(w', a, {}) && w'.nodes == w.nodes
    decreases |waiting|
  {
    if waiting == {} {
      steps, w' := [], w;
    } else {
      var n :| n in waiting;
      var d := OneBacksOff(w, a, waiting, n);
      var more;
      more, w' := AllBackOff(Apply(w, d), a, waiting - {n});
      steps := [d] + more;
      assert steps[1..] == more;
    }
  }

  lemma Joins(w: World, a: NodeId) returns (join: Step)
    requires FreshStart(w) && a in w.nodes
    ensures join.Join? && Enabled(w, join) && Campaigning(Apply(w, join), a, w.nodes.Keys - {a})
    ensures Apply(w, join).nodes.Keys == w.nodes.Keys
  {
    join := Join(a, 0);
    BroadcastCopies(a, w.nodes.Keys, Fresh(a).StartMsg());
  }

  /** Every Start was heard, so the candidate's timeout makes it lead. */
  lemma WinsUnopposed(w: World, a: NodeId) returns (win: Step)
    requires Campaigning(w, a, {})
    ensures win.CheckElection? && Enabled(w, win) && Leads(Apply(w, win), a)
    ensures Apply(w, win).live == Apply(w, win).nodes.Keys == w.nodes.Keys && Apply(w, win).nodes[a].id == a
    ensures forall n :: n in w.nodes && n != a ==> Apply(w, win).nodes[n] == Fresh(n)
  {
    win := CheckElection(a, 4, 3, 5);
    assert Copies(a, {}, Fresh(a).StartMsg()) == {};
    assert w.net == multiset{};
    assert Drained(w, a);
  }

  /** A rival of the same priority runs, and the leader that hears it steps down. */
  lemma RivalUnseats(w: World, a: NodeId, b: NodeId) returns (steps: seq<Step>, w': World)
    requires Tied(w, a, b) && w.live == w.nodes.Keys && w.nodes[a].id == a && w.nodes[b] == Fresh(b)
    ensures Crashless(steps) && Run(w, steps, w') && !Leads(w', a)
  {
    var join := Join(b, 5);
    var msg := Fresh(b).StartMsg();
    BroadcastCopies(b, w.nodes.Keys, msg);
    var w1 := Apply(w, join);
    var d := Deliver(Packet(b, a, msg), 6);
    assert Packet(b, a, msg) in Copies(b, w.nodes.Keys - {b}, msg);
    assert Packet(b, a, msg) in w1.net;
    w' := Apply(w1, d);
    steps := [join, d];
    assert Run(w', [], w') && [d][1..] == [] && Run(w1, [d], w') && steps[1..] == [d];
  }

  /** A node that nobody outranks can come to lead, with everybody else untouched. */
  lemma CanLead(w: World, a: NodeId) returns (steps: seq<Step>, w': World)
    requires FreshStart(w) && a in w.nodes && forall n :: n in w.nodes ==> PriorityFromId(n) <= PriorityFromId(a)
    ensures Crashless(steps) && Run(w, steps, w') && Leads(w', a)
    ensures w'.live == w'.nodes.Keys == w.nodes.Keys && w'.nodes[a].id == a
    ensures forall n :: n in w.nodes && n != a ==> w'.nodes[n] == Fresh(n)
  {
    var join := Joins(w, a);
    var heard, w2 := AllBackOff(Apply(w, join), a, w.nodes.Keys - {a});
    var win := WinsUnopposed(w2, a);
    w' := Apply(w2, win);
    RunPrepend(w2, win, [], w');
    RunAppend(Apply(w, join), heard, w2, [win] + [], w');
    RunPrepend(w, join, heard + ([win] + []), w');
    steps := [join] + (heard + ([win] + []));
  }

  /** With a tie at the top some leader does not stay. */
  lemma TieUnseats(w: World, a: NodeId, b: NodeId)
    requires FreshStart(w) && Tied(w, a, b)
    ensures !LeadersStay(w)
  {
    var steps, w' := CanLead(w, a);
    var more, w'' := RivalUnseats(w', a, b);
    assert Crashless(steps) && Run(w, steps, w') && Leads(w', a) && Crashless(more) && Run(w', more, w'') && !Leads(w'', a);
  }

  lemma {:induction false} Highest(nodes: set<NodeId>) returns (m: NodeId)
    requires nodes != {}
    ensures m in nodes && forall n :: n in nodes ==> PriorityFromId(n) <= PriorityFromId(m)
    decreases |nodes|
  {
    m :| m in nodes;
    if nodes != {m} {
      var rest := Highest(nodes - {m});
      if PriorityFromId(rest) > PriorityFromId(m) {
        m := rest;
      }
    }
  }

  /** From a fresh start leaders stay, in all runs without crashes, if and only if no two nodes tie at the top. */
  lemma StableIffUntied(w: World)
    requires FreshStart(w) && w.nodes.Keys != {}
    ensures LeadersStay(w) <==> exists m :: Top(w, m)
  {
    var m := Highest(w.nodes.Keys);
    if Top(w, m) {
      forall steps, w', more, w'', x
        | Crashless(steps) && Run(w, steps, w') && Leads(w', x) && Crashless(more) && Run(w', more, w'')
        ensures Leads(w'', x)
      {
        LeaderIsStable(w, steps, w', more, w'', x, m);
      }
    } else {
      var b :| b in w.nodes && b != m && PriorityFromId(b) >= PriorityFromId(m);
      TieUnseats(w, m, b);
      forall k
        ensures !Top(w, k)
      {
        assert k in w.nodes && k != m ==> PriorityFromId(k) <= PriorityFromId(m);
        assert k == m ==> b != k && PriorityFromId(b) >= PriorityFromId(k);
      }
    }
  }
}
