/**
 Concrete runs of two nodes: one that meets all conditions of the election results, and two
 that show that the conditions cannot be dropped.
 */
module ElectionLimits {
  import opened Common
  import opened Election
  import opened ElectionProtocol
  import opened ElectionAgreement
  import opened ElectionCascade

  ghost predicate PossibleRun(w: World, steps: seq<Step>, w': World)
    decreases |steps|
  {
    if steps == [] then w' == w
    else Possible(w, steps[0]) && PossibleRun(Apply(w, steps[0]), steps[1..], w')
  }

  ghost function TwoNodes(a: NodeId, b: NodeId): World {
    World(map[a := Fresh(a), b := Fresh(b)], {a, b}, multiset{})
  }

  lemma JoinOf(w: World, a: NodeId, b: NodeId, now: nat)
    requires a != b && w.nodes.Keys == {a, b} && w.live == {a, b} && w.nodes[a].id == a && w.nodes[a].role != Leader
    ensures Possible(w, Join(a, now)) && Apply(w, Join(a, now)).nodes.Keys == {a, b}
    ensures Apply(w, Join(a, now)) ==
            w.(nodes := w.nodes[a := w.nodes[a].StartElection(now)],
               net := w.net + multiset{Packet(a, b, w.nodes[a].StartMsg())})
  {
    var sends := [Broadcast(w.nodes[a].StartMsg(), None)];
    assert sends[0] in sends && Reaches(a, sends[0], b);
    assert Emitted(a, {a, b}, sends) == {Packet(a, b, w.nodes[a].StartMsg())};
  }

  lemma WinOf(w: World, a: NodeId, b: NodeId, now: nat)
    requires a != b && w.nodes.Keys == {a, b} && w.live == {a, b} && w.nodes[a].id == a
    requires w.nodes[a].role == Candidate && !w.nodes[a].receivedAlive
    requires w.nodes[a].startedAt.Some? && w.nodes[a].startedAt.value + 3 < now
    ensures Possible(w, CheckElection(a, now, 3, 5)) && Apply(w, CheckElection(a, now, 3, 5)).nodes.Keys == {a, b}
    ensures Apply(w, CheckElection(a, now, 3, 5)) ==
            w.(nodes := w.nodes[a := w.nodes[a].(role := Leader, leader := Some(a), startedAt := None)],
               net := w.net + multiset{Packet(a, b, Victory(a))})
  {
    var sends := [Broadcast(Victory(a), None)];
    assert sends[0] in sends && Reaches(a, sends[0], b);
    assert Emitted(a, {a, b}, sends) == {Packet(a, b, Victory(a))};
  }

  lemma BackOffOf(w: World, a: NodeId, b: NodeId, now: nat)
    requires a != b && w.nodes.Keys == {a, b} && w.live == {a, b} && w.nodes[b].id == b
    requires PriorityFromId(b) <= PriorityFromId(a) && Packet(a, b, Start(a, PriorityFromId(a))) in w.net
    ensures Possible(w, Deliver(Packet(a, b, Start(a, PriorityFromId(a))), now))
    ensures Apply(w, Deliver(Packet(a, b, Start(a, PriorityFromId(a))), now)).nodes.Keys == {a, b}
    ensures Apply(w, Deliver(Packet(a, b, Start(a, PriorityFromId(a))), now)) ==
            w.(nodes := w.nodes[b := w.nodes[b].(role := Follower, startedAt := None)],
               net := w.net - multiset{Packet(a, b, Start(a, PriorityFromId(a)))})
  {
    assert Emitted(b, {a, b}, []) == {};
  }

  /** A node runs and, hearing nothing, leads. */
  lemma RunsAndWins(w: World, a: NodeId, b: NodeId, now: nat) returns (steps: seq<Step>, w': World)
    requires a != b && w.nodes.Keys == {a, b} && w.live == {a, b} && w.nodes[a] == Fresh(a)
    ensures PossibleRun(w, steps, w') && w'.nodes.Keys == {a, b} && w'.live == {a, b}
    ensures w'.nodes[a].role == Leader && w'.nodes[b] == w.nodes[b]
  {
    JoinOf(w, a, b, now);
    var w1 := Apply(w, Join(a, now));
    WinOf(w1, a, b, now + 4);
    var win := CheckElection(a, now + 4, 3, 5);
    w' := Apply(w1, win);
    steps := [Join(a, now), win];
    assert PossibleRun(w', [], w') && [win][1..] == [] && PossibleRun(w1, [win], w') && steps[1..] == [win];
  }

  lemma PossiblePrepend(w: World, s: Step, steps: seq<Step>, w': World)
    requires Possible(w, s) && PossibleRun(Apply(w, s), steps, w')
    ensures PossibleRun(w, [s] + steps, w')
  {
    assert ([s] + steps)[1..] == steps;
  }

  lemma {:induction false} PossibleAppend(w: World, s1: seq<Step>, w1: World, s2: seq<Step>, w2: World)
    requires PossibleRun(w, s1, w1) && PossibleRun(w1, s2, w2)
    ensures PossibleRun(w, s1 + s2, w2)
    decreases |s1|
  {
    if s1 == [] {
      assert s1 + s2 == s2;
    } else {
      PossibleAppend(Apply(w, s1[0]), s1[1..], w1, s2, w2);
      PossiblePrepend(w, s1[0], s1[1..] + s2, w2);
      assert s1 + s2 == [s1[0]] + (s1[1..] + s2);
    }
  }

  /** A timeout that fires before its round trip drained lets both of two nodes lead. */
  lemma UndrainedTimeoutsSplit(a: NodeId, b: NodeId) returns (steps: seq<Step>, w: World)
    requires a != b
    ensures PossibleRun(TwoNodes(a, b), steps, w) && Leads(w, a) && Leads(w, b)
  {
    var first, w1 := RunsAndWins(TwoNodes(a, b), a, b, 0);
    assert {a, b} == {b, a};
    var second, w2 := RunsAndWins(w1, b, a, 4);
    PossibleAppend(TwoNodes(a, b), first, w1, second, w2);
    steps, w := first + second, w2;
  }

  lemma RunPrepend(w: World, s: Step, steps: seq<Step>, w': World)
    requires Enabled(w, s) && Run(Apply(w, s), steps, w')
    ensures Run(w, [s] + steps, w')
  {
    assert ([s] + steps)[1..] == steps;
  }

  lemma {:induction false} RunAppend(w: World, s1: seq<Step>, w1: World, s2: seq<Step>, w2: World)
    requires Run(w, s1, w1) && Run(w1, s2, w2)
    ensures Run(w, s1 + s2, w2)
    decreases |s1|
  {
    if s1 == [] {
      assert s1 + s2 == s2;
    } else {
      RunAppend(Apply(w, s1[0]), s1[1..], w1, s2, w2);
      RunPrepend(w, s1[0], s1[1..] + s2, w2);
      assert s1 + s2 == [s1[0]] + (s1[1..] + s2);
    }
  }

  /** One node runs and the other, which does not outrank it, backs off. */
  lemma FirstRuns(a: NodeId, b: NodeId) returns (steps: seq<Step>, w: World)
    requires a != b && PriorityFromId(b) <= PriorityFromId(a)
    ensures Crashless(steps) && Run(TwoNodes(a, b), steps, w)
    ensures w.nodes.Keys == {a, b} && w.live == {a, b} && w.net == multiset{}
    ensures w.nodes[a] == Fresh(a).StartElection(0) && w.nodes[b] == Fresh(b)
  {
    var w0 := TwoNodes(a, b);
    JoinOf(w0, a, b, 0);
    var w1 := Apply(w0, Join(a, 0));
    BackOffOf(w1, a, b, 1);
    var d := Deliver(Packet(a, b, Start(a, PriorityFromId(a))), 1);
    w := Apply(w1, d);
    steps := [Join(a, 0), d];
    assert Run(w1, steps[1..], w);
  }

  /** Its round trip drained, it leads. */
  lemma ThenLeads(w: World, a: NodeId, b: NodeId) returns (win: Step, w': World)
    requires a != b && w.nodes.Keys == {a, b} && w.live == {a, b} && w.net == multiset{}
    requires w.nodes[a] == Fresh(a).StartElection(0) && w.nodes[b] == Fresh(b)
    ensures Wins(w, a, win, w') && Run(w, [win], w') && Leads(w', a)
    ensures w'.nodes.Keys == {b, a} && w'.live == {b, a} && w'.nodes[b] == Fresh(b)
    ensures w'.nodes[a].id == a && w'.nodes[a].leader == Some(a) && w'.net == multiset{Packet(a, b, Victory(a))}
  {
    WinOf(w, a, b, 4);
    win := CheckElection(a, 4, 3, 5);
    assert Drained(w, a);
    w' := Apply(w, win);
    assert Run(w', [win][1..], w');
  }

  /** The other hears of the victory and follows. */
  lemma ThenFollows(w: World, a: NodeId, b: NodeId) returns (more: seq<Step>, w': World)
    requires a != b && w.nodes.Keys == {b, a} && w.live == {b, a} && w.net == multiset{Packet(a, b, Victory(a))}
    requires w.nodes[b] == Fresh(b) && w.nodes[a].role == Leader && w.nodes[a].leader == Some(a)
    ensures DeliveriesOnly(more) && Run(w, more, w') && w'.net == multiset{} && AllFollow(w', a)
  {
    var d := Deliver(Packet(a, b, Victory(a)), 5);
    more := [d];
    assert Emitted(b, {b, a}, []) == {};
    w' := Apply(w, d);
    assert Run(w', more[1..], w');
  }

  lemma TwoNodesFresh(a: NodeId, b: NodeId)
    requires a != b
    ensures FreshStart(TwoNodes(a, b))
    ensures PriorityFromId(b) < PriorityFromId(a) ==> Top(TwoNodes(a, b), a)
  {
  }

  lemma ThenLeadsAndFollows(w: World, a: NodeId, b: NodeId)
    returns (win: Step, won: World, more: seq<Step>, w': World)
    requires a != b && w.nodes.Keys == {a, b} && w.live == {a, b} && w.net == multiset{}
    requires w.nodes[a] == Fresh(a).StartElection(0) && w.nodes[b] == Fresh(b)
    ensures Wins(w, a, win, won) && DeliveriesOnly(more) && Run(won, more, w')
    ensures w'.net == multiset{} && AllFollow(w', a)
  {
    win, won := ThenLeads(w, a, b);
    more, w' := ThenFollows(won, a, b);
  }

  /**
   The higher of two nodes runs, wins and is followed: a run that meets all that convergence
   asks for and reaches its conclusion.
   */
  lemma TwoNodesConverge(a: NodeId, b: NodeId)
    returns (steps: seq<Step>, w: World, win: Step, won: World, more: seq<Step>, w': World)
    requires a != b && PriorityFromId(b) < PriorityFromId(a)
    ensures FreshStart(TwoNodes(a, b)) && Top(TwoNodes(a, b), a) && Crashless(steps) && Run(TwoNodes(a, b), steps, w)
    ensures Wins(w, a, win, won) && DeliveriesOnly(more) && Run(won, more, w')
    ensures w'.net == multiset{} && AllFollow(w', a)
  {
    TwoNodesFresh(a, b);
    steps, w := FirstRuns(a, b);
    win, won, more, w' := ThenLeadsAndFollows(w, a, b);
  }

  /** When the other joins, it is unseated. */
  lemma ThenBacksOff(w: World, a: NodeId, b: NodeId) returns (more: seq<Step>, w': World)
    requires a != b && PriorityFromId(a) == PriorityFromId(b) && w.nodes.Keys == {b, a} && w.live == {b, a}
    requires w.nodes[b] == Fresh(b) && w.nodes[a].id == a && w.nodes[a].leader == Some(a)
    ensures Crashless(more) && Run(w, more, w')
    ensures a in w'.nodes && w'.nodes[a].role == Follower && w'.nodes[a].leader == Some(a)
  {
    JoinOf(w, b, a, 5);
    var w1 := Apply(w, Join(b, 5));
    BackOffOf(w1, b, a, 6);
    var d := Deliver(Packet(b, a, Start(b, PriorityFromId(b))), 6);
    w' := Apply(w1, d);
    more := [Join(b, 5), d];
    assert Run(w1, more[1..], w');
  }

  /**
   Of two nodes with equal priorities the leader backs off when the other runs; it still
   names itself as leader while it follows.
   */
  lemma EqualPriorityUnseatsLeader(a: NodeId, b: NodeId)
    returns (steps: seq<Step>, w: World, more: seq<Step>, w': World)
    requires a != b && PriorityFromId(a) == PriorityFromId(b)
    ensures FreshStart(TwoNodes(a, b)) && Crashless(steps) && Run(TwoNodes(a, b), steps, w) && Leads(w, a)
    ensures Crashless(more) && Run(w, more, w')
    ensures a in w'.nodes && w'.nodes[a].role == Follower && w'.nodes[a].leader == Some(a)
  {
    var before, w0 := FirstRuns(a, b);
    var win;
    win, w := ThenLeads(w0, a, b);
    RunAppend(TwoNodes(a, b), before, w0, [win], w);
    steps := before + [win];
    more, w' := ThenBacksOff(w, a, b);
  }
}
