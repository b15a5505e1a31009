/**
 Failover. The nodes follow a leader and nothing is in flight; the leader crashes. As soon as
 one survivor notices, the highest survivor runs or is about to, nobody else can come to lead,
 and after its victory boundedly many deliveries make every survivor follow it. The outcome is
 again a settled world, so that leaders may crash one after the other.
 */
module ElectionFailover {
  import opened Common
  import opened Election
  import opened ElectionProtocol
  import opened ElectionAgreement
  import opened ElectionCascade
  import opened ElectionSteps

  /** Every live node follows the live node `m`, and nothing is in flight. */
  ghost predicate Settled(w: World, m: NodeId) {
    Inv(w) && w.net == multiset{} && IsLive(w, m) && AllFollow(w, m)
  }

  /** After its leader's crash: nothing has happened yet. */
  ghost predicate Unaware(w: World, gone: NodeId) {
    w.net == multiset{} && forall n :: IsLive(w, n) ==> Follows(w, n, gone)
  }

  /** `t` leads or runs, or some node's Start will make it run. */
  ghost predicate Awake(w: World, t: NodeId) {
    Leads(w, t) || Runs(w, t) || exists y :: IsLive(w, y) && y != t && StartInFlight(w, y, t)
  }

  /** Every survivor is lower than `t` in the upper half of its id. */
  ghost predicate HighestSurvivor(w: World, gone: NodeId, t: NodeId) {
    IsLive(w, t) && t != gone && forall n :: IsLive(w, n) && n != gone && n != t ==> n.hi < t.hi
  }

  ghost predicate Notices(s: Step, gone: NodeId) { s.NodeGone? && s.gone == gone }

  lemma SurvivorsAgree(w: World, gone: NodeId, t: NodeId)
    requires Settled(w, gone) && HighestSurvivor(w, gone, t)
    ensures AgreeInv(Apply(w, Crash(gone)), t) && Unaware(Apply(w, Crash(gone)), gone)
  {
    InvKept(w, Crash(gone));
  }

  /** Until a survivor notices the crash, or joins anew, nothing happens. */
  lemma UnawareKept(w: World, s: Step, gone: NodeId)
    requires WellFormed(w) && Unaware(w, gone) && Enabled(w, s) && !s.Crash? && !s.Join? && !Notices(s, gone)
    ensures Apply(w, s) == w
  {
    assert s.NodeGone? || s.CheckElection?;
    assert IsLive(w, s.node) && Follows(w, s.node, gone);
    if s.NodeGone? {
      LossOfLeader(w, s.node, s.gone, s.now);
    } else {
      TimeoutCheck(w, s.node, s.now, s.electionTimeout, s.victoryTimeout);
    }
  }

  /** Whoever notices first runs at once, and the highest survivor hears of it. */
  lemma Wakes(w: World, s: Step, gone: NodeId, t: NodeId)
    requires AgreeInv(w, t) && Unaware(w, gone) && Enabled(w, s) && (s.Join? || Notices(s, gone))
    ensures Awake(Apply(w, s), t)
  {
    assert IsLive(w, s.node) && IsLive(w, t) && Follows(w, s.node, gone);
    if s.Join? {
      JoiningRuns(w, s.node, s.now);
    } else {
      LossOfLeader(w, s.node, s.gone, s.now);
    }
    RunnerIsHeard(w, Apply(w, s), s.node, s.now, t);
  }

  lemma RunnerIsHeard(w: World, w': World, n: NodeId, now: nat, t: NodeId)
    requires StartsRunning(w', n, now, None) && OnlyTouches(w, w', n, multiset{})
    requires IsLive(w, n) && IsLive(w, t)
    ensures Awake(w', t)
  {
    if n != t {
      assert Packet(n, t, Start(n, n.hi)) in w'.net;
      assert StartInFlight(w', n, t);
    }
  }

  lemma StartWakes(w: World, s: Step, t: NodeId, y: NodeId)
    requires AgreeInv(w, t) && Enabled(w, s) && IsLive(w, y) && y != t && StartInFlight(w, y, t)
    ensures StartInFlight(Apply(w, s), y, t) || Runs(Apply(w, s), t) || Leads(Apply(w, s), t)
  {
    var start := Packet(y, t, Start(y, PriorityFromId(y)));
    if start !in Apply(w, s).net {
      OnlyTheTakenPacketLeaves(w, s, start);
      StartMakesTopRun(w, s, t, y);
    }
  }

  lemma AwakeKept(w: World, s: Step, t: NodeId)
    requires AgreeInv(w, t) && Awake(w, t) && Enabled(w, s) && !s.Crash?
    ensures Awake(Apply(w, s), t)
  {
    if Leads(w, t) || Runs(w, t) {
      TopStaysLeader(w, s, t);
    } else {
      var y :| IsLive(w, y) && y != t && StartInFlight(w, y, t);
      StartWakes(w, s, t, y);
      assert Apply(w, s).live == w.live && y in Apply(w, s).nodes by {
        TopStaysLeader(w, s, t);
        WellFormedKept(w, s);
      }
    }
  }

  lemma {:induction false} SurvivorsRun(w: World, steps: seq<Step>, w': World, gone: NodeId, t: NodeId)
    requires AgreeInv(w, t) && Crashless(steps) && Run(w, steps, w')
    requires Awake(w, t) || (Unaware(w, gone) && exists s :: s in steps && Notices(s, gone))
    ensures AgreeInv(w', t) && Awake(w', t)
    decreases |steps|
  {
    if steps != [] {
      var s := steps[0];
      AgreeInvKept(w, s, t);
      if Awake(w, t) {
        AwakeKept(w, s, t);
      } else if s.Join? || Notices(s, gone) {
        Wakes(w, s, gone, t);
      } else {
        UnawareKept(w, s, gone);
      }
      SurvivorsRun(Apply(w, s), steps[1..], w', gone, t);
    }
  }

  lemma SettledSurvivors(w: World, gone: NodeId, t: NodeId, steps: seq<Step>, w': World)
    requires Settled(w, gone) && HighestSurvivor(w, gone, t) && Crashless(steps)
    requires Run(Apply(w, Crash(gone)), steps, w') && exists s :: s in steps && Notices(s, gone)
    ensures AgreeInv(w', t) && Awake(w', t)
  {
    SurvivorsAgree(w, gone, t);
    SurvivorsRun(Apply(w, Crash(gone)), steps, w', gone, t);
  }

  // ----- main results -----

  /** A crash-free election ends in a settled world. */
  lemma ElectionSettles(w: World, steps: seq<Step>, w': World, m: NodeId)
    requires FreshStart(w) && Top(w, m) && Crashless(steps) && Run(w, steps, w')
    requires Leads(w', m) && w'.net == multiset{}
    ensures Settled(w', m)
  {
    FreshAgreeInv(w, m);
    RunKeepsAgreeInv(w, steps, w', m);
    QuiescentFollow(w', m);
  }

  /**
   The leader crashed and at least one follower noticed: nobody but the highest survivor can
   lead, and once nothing is in flight either it leads and all survivors follow it, or it runs
   unanswered and its timeout makes it win as soon as it expires.
   */
  lemma HighestSurvivorRuns(w: World, gone: NodeId, t: NodeId, steps: seq<Step>, w': World)
    requires Settled(w, gone) && HighestSurvivor(w, gone, t) && Crashless(steps)
    requires Run(Apply(w, Crash(gone)), steps, w') && exists s :: s in steps && Notices(s, gone)
    ensures forall x :: Leads(w', x) ==> x == t
    ensures w'.net == multiset{} ==>
              || Settled(w', t)
              || (&& Runs(w', t) && w'.nodes[t].startedAt.Some?
                  && forall now: nat, et: nat, vt: nat :: w'.nodes[t].startedAt.value + et < now ==>
                       Enabled(w', CheckElection(t, now, et, vt)) && DeclaresVictory(w'.nodes[t], CheckElection(t, now, et, vt)))
  {
    SettledSurvivors(w, gone, t, steps, w');
    if w'.net == multiset{} && Leads(w', t) {
      QuiescentFollow(w', t);
    }
  }

  /** After its victory no more deliveries than the measure allows settle the survivors under it. */
  lemma Failover(w: World, gone: NodeId, t: NodeId, steps: seq<Step>, w': World,
                 s: Step, won: World, more: seq<Step>, w'': World)
    requires Settled(w, gone) && HighestSurvivor(w, gone, t) && Crashless(steps)
    requires Run(Apply(w, Crash(gone)), steps, w') && exists x :: x in steps && Notices(x, gone)
    requires Wins(w', t, s, won) && DeliveriesOnly(more) && Run(won, more, w'')
    ensures |more| + Measure(w'') <= Measure(won)
    ensures w''.net == multiset{} ==> Settled(w'', t)
  {
    SettledSurvivors(w, gone, t, steps, w');
    ConvergesFrom(w', t, s, won, more, w'');
    VictoryLeads(w', t, s, won);
    RunKeepsAgreeInv(won, more, w'', t);
  }
}
