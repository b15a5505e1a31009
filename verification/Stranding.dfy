/**
 A node that stays master (cluster/src/main.rs): its node table and its assignments, across
 registrations, heartbeats, health ticks, departures, scheduling and reports.
 */
module Stranding {
  import opened Common
  import opened Collections
  import opened Scheduler
  import opened ScheduleCall
  import opened Master
  import opened Placement
  import E = Election
  import N = Nodes

  datatype App = App(m: MasterState, t: N.Table, self: NodeId, timeout: nat, hasStore: bool)

  datatype Step =
    | Identified(info: NodeInfo, now: nat)
    | Heartbeat(id: NodeId, load: nat, now: nat)
    | Health(now: nat, dead: seq<NodeId>, moves: seq<map<JobId, seq<nat>>>)
    | Leave(id: NodeId, moved: map<JobId, seq<nat>>)
    | Schedule(order: seq<JobId>, nodes: seq<NodeInfo>, sends: nat -> bool)
    | Submitted(job: JobId, segments: seq<SegmentDescriptor>)
    | Completed(job: JobId, result: SegmentResult, url: string)
    | Broken(job: JobId, segment: nat, error: string)

  /** The nodes in `dead` are emptied one after the other. */
  ghost function Evacuate(jobs: map<JobId, JobSchedule>, dead: seq<NodeId>, moves: seq<map<JobId, seq<nat>>>)
    : map<JobId, JobSchedule>
    requires |dead| == |moves|
    decreases |dead|
  {
    if dead == [] then jobs
    else ReassignAll(Evacuate(jobs, dead[..|dead| - 1], moves[..|dead| - 1]), moves[|dead| - 1])
  }

  ghost predicate Evacuates(jobs: map<JobId, JobSchedule>, dead: seq<NodeId>, moves: seq<map<JobId, seq<nat>>>)
    decreases |dead|
  {
    && |dead| == |moves|
    && (dead != [] ==>
          && Evacuates(jobs, dead[..|dead| - 1], moves[..|dead| - 1])
          && Moves(Evacuate(jobs, dead[..|dead| - 1], moves[..|dead| - 1]), dead[|dead| - 1], moves[|dead| - 1])
          && moves[|dead| - 1].Keys == jobs.Keys)
  }

  /** Some of the active nodes, as the scheduler is given those that can be reached. */
  ghost predicate SomeActive(nodes: seq<NodeInfo>, t: N.Table) {
    DistinctIds(nodes) && forall x :: x in nodes ==> x.nodeId in t && t[x.nodeId].info == x && N.IsActive(x)
  }

  ghost predicate Possible(s: App, step: Step) {
    match step
    case Identified(info, now) => info.status == Active
    case Health(now, dead, moves) =>
      Enumerates(dead, N.DeadAt(s.t, s.self, s.timeout, now)) && Evacuates(s.m.jobs, dead, moves)
    case Leave(id, moved) => Moves(s.m.jobs, id, moved) && moved.Keys == s.m.jobs.Keys
    case Schedule(order, nodes, sends) => Enumerates(order, s.m.jobs.Keys) && SomeActive(nodes, s.t)
    case _ => true
  }

  ghost function Apply(s: App, step: Step): App
    requires Possible(s, step)
  {
    match step
    case Identified(info, now) => s.(t := N.Register(s.t, info, now))
    case Heartbeat(id, load, now) => s.(t := N.Beat(s.t, id, load, now))
    case Health(now, dead, moves) =>
      s.(t := N.Checked(s.t, s.self, s.timeout, now), m := s.m.(jobs := Evacuate(s.m.jobs, dead, moves)))
    case Leave(id, moved) => s.(t := s.t - {id}, m := s.m.(jobs := ReassignAll(s.m.jobs, moved)))
    case Schedule(order, nodes, sends) => s.(m := RunScheduler(s.m, order, nodes, sends).0)
    case Submitted(job, segments) => s.(m := Submit(s.m, job, segments))
    case Completed(job, result, url) => s.(m := OnComplete(s.m, job, result, url, s.hasStore))
    case Broken(job, segment, error) => s.(m := OnFailed(s.m, job, segment, error, s.hasStore))
  }

  ghost predicate Run(s: App, steps: seq<Step>, s': App)
    decreases |steps|
  {
    if steps == [] then s' == s else Possible(s, steps[0]) && Run(Apply(s, steps[0]), steps[1..], s')
  }

  /** `jobs` is what is left of `was` after the nodes in `dead` were emptied. */
  ghost predicate Emptied(was: map<JobId, JobSchedule>, dead: seq<NodeId>, moves: seq<map<JobId, seq<nat>>>,
                          jobs: map<JobId, JobSchedule>)
  {
    Evacuates(was, dead, moves) && jobs == Evacuate(was, dead, moves) && jobs.Keys == was.Keys
  }

  lemma EmptiedOneMore(was: map<JobId, JobSchedule>, dead: seq<NodeId>, k: nat, moves: seq<map<JobId, seq<nat>>>,
                       jobs: map<JobId, JobSchedule>, moved: map<JobId, seq<nat>>)
    requires k < |dead| && Emptied(was, dead[..k], moves, jobs) && Moves(jobs, dead[k], moved) && moved.Keys == jobs.Keys
    ensures Emptied(was, dead[..k + 1], moves + [moved], ReassignAll(jobs, moved))
  {
    assert dead[..k + 1][..k] == dead[..k] && (moves + [moved])[..k] == moves;
  }

  // ----- the methods -----

  class MasterNode {
    const nodes: N.NodeManager
    const master: Master
    const election: E.ElectionApp

    constructor (nodes: N.NodeManager, master: Master, election: E.ElectionApp)
      ensures this.nodes == nodes && this.master == master && this.election == election
    {
      this.nodes, this.master, this.election := nodes, master, election;
    }

    ghost function State(): App
      reads nodes, master, master.scheduler
    {
      App(master.State(), nodes.nodes, nodes.selfId, nodes.deadTimeout, master.hasStore)
    }

    predicate IsMaster()
      reads election, election.election
    {
      election.election.role == E.Leader
    }

    /** The parts agree on this node's id, and a leader names itself. */
    ghost predicate Valid()
      reads election, election.election
    {
      && election.Valid() && election.election.nodeId == nodes.selfId
      && (IsMaster() ==> election.election.currentLeader == Some(nodes.selfId))
    }

    /** The node went through reaction `r` of the election. */
    twostate predicate Elected(r: E.Reaction)
      reads election, election.election
    {
      election.election.View() == r.node && election.outbox == old(election.outbox) + r.sends
    }

    /** If the known master is lost this node runs and broadcasts so; otherwise its election goes on as before. */
    twostate predicate RunsIf(lost: bool, now: nat)
      reads election, election.election
    {
      var e := election.election;
      if lost then
        && e.role == E.Candidate && e.electionStartedAt == Some(now) && e.currentLeader == None
        && !e.receivedAlive && e.aliveReceivedAt == None
        && election.outbox == old(election.outbox) + [E.Broadcast(E.Start(e.nodeId, e.nodeId.hi), None)]
      else
        e.View() == old(e.View()) && election.outbox == old(election.outbox)
    }

    /** A master requeues the node's segments; whoever followed the node runs. */
    method LoseNode(id: NodeId, now: nat) returns (ghost moved: map<JobId, seq<nat>>)
      requires election.Valid()
      modifies master.scheduler, election, election.election
      ensures election.Valid() && Elected(E.OnNodeGone(old(election.election.View()), id, now))
      ensures RunsIf(old(election.election.currentLeader) == Some(id), now)
      ensures old(IsMaster()) ==>
                && Moves(old(master.scheduler.jobs), id, moved) && moved.Keys == old(master.scheduler.jobs).Keys
                && master.scheduler.jobs == ReassignAll(old(master.scheduler.jobs), moved)
      ensures !old(IsMaster()) ==> master.scheduler.jobs == old(master.scheduler.jobs)
    {
      moved := map[];
      if IsMaster() {
        var requeued;
        requeued, moved := master.scheduler.ReassignFromNode(id);
      }
      election.HandleNodeGone(id, now);
    }

    method LoseNodes(lapsed: seq<NodeId>, now: nat) returns (ghost moves: seq<map<JobId, seq<nat>>>)
      requires Valid() && nodes.selfId !in lapsed
      modifies master.scheduler, election, election.election
      ensures election.Valid() && Elected(E.OnNodesGone(old(election.election.View()), lapsed, now))
      ensures IsMaster() == old(IsMaster())
      ensures IsMaster() ==>
                && Evacuates(old(master.scheduler.jobs), lapsed, moves)
                && master.scheduler.jobs == Evacuate(old(master.scheduler.jobs), lapsed, moves)
      ensures !IsMaster() ==> master.scheduler.jobs == old(master.scheduler.jobs)
    {
      moves := [];
      ghost var was, e, sent, leads := master.scheduler.jobs, election.election.View(), election.outbox, IsMaster();
      assert lapsed[..0] == [] && sent + [] == sent;
      var k := 0;
      while k < |lapsed|
        invariant 0 <= k <= |lapsed| && election.Valid() && IsMaster() == leads
        invariant election.election.View() == E.OnNodesGone(e, lapsed[..k], now).node
        invariant election.outbox == sent + E.OnNodesGone(e, lapsed[..k], now).sends
        invariant leads ==> Emptied(was, lapsed[..k], moves, master.scheduler.jobs)
        invariant !leads ==> master.scheduler.jobs == was
      {
        assert lapsed[..k + 1][..k] == lapsed[..k] && e.id !in lapsed[..k + 1];
        E.GoneKeepsRole(e, lapsed[..k + 1], now);
        ghost var before, moved := master.scheduler.jobs, map[];
        moved := LoseNode(lapsed[k], now);
        if leads {
          EmptiedOneMore(was, lapsed, k, moves, before, moved);
          moves := moves + [moved];
        }
        k := k + 1;
      }
      assert lapsed[..k] == lapsed;
    }

    /**
     Lapsed nodes are declared dead; a master requeues their segments; whoever followed one of
     them runs.
     */
    method CheckHealth(now: nat) returns (ghost dead: seq<NodeId>, ghost moves: seq<map<JobId, seq<nat>>>)
      requires Valid()
      modifies nodes, master.scheduler, election, election.election
      ensures election.Valid() && Enumerates(dead, N.DeadAt(old(nodes.nodes), nodes.selfId, nodes.deadTimeout, now))
      ensures Elected(E.OnNodesGone(old(election.election.View()), dead, now))
      ensures RunsIf(old(election.election.currentLeader).Some? && old(election.election.currentLeader).value in dead, now)
      ensures IsMaster() == old(IsMaster())
      ensures IsMaster() ==>
                Possible(old(State()), Health(now, dead, moves)) && State() == Apply(old(State()), Health(now, dead, moves))
      ensures !IsMaster() ==>
                && nodes.nodes == N.Checked(old(nodes.nodes), nodes.selfId, nodes.deadTimeout, now)
                && master.scheduler.jobs == old(master.scheduler.jobs)
    {
      var lapsed := nodes.CheckDeadNodes(now);
      dead := lapsed;
      ghost var e := election.election.View();
      moves := LoseNodes(lapsed, now);
      E.GoneMakesRun(e, lapsed, now);
    }

    /** A departing node is forgotten; a master requeues its segments; whoever followed it runs. */
    method HandleNodeLeave(id: NodeId, now: nat) returns (ghost moved: map<JobId, seq<nat>>)
      requires election.Valid()
      modifies nodes, master.scheduler, election, election.election
      ensures election.Valid() && Elected(E.OnNodeGone(old(election.election.View()), id, now))
      ensures RunsIf(old(election.election.currentLeader) == Some(id), now)
      ensures old(IsMaster()) ==> Possible(old(State()), Leave(id, moved)) && State() == Apply(old(State()), Leave(id, moved))
      ensures !old(IsMaster()) ==>
                nodes.nodes == old(nodes.nodes) - {id} && master.scheduler.jobs == old(master.scheduler.jobs)
    {
      var removed := nodes.RemoveNode(id);
      moved := LoseNode(id, now);
    }

    /** A master schedules on the active nodes that can be reached. */
    method RunScheduler(reachable: set<NodeId>, sends: nat -> bool)
      returns (ghost order: seq<JobId>, ghost active: seq<NodeInfo>)
      requires N.Filed(nodes.nodes)
      modifies master, master.scheduler
      ensures !IsMaster() ==> State() == old(State()) && master.outbox == old(master.outbox)
      ensures IsMaster() ==> Possible(old(State()), Schedule(order, active, sends))
      ensures IsMaster() ==> State() == Apply(old(State()), Schedule(order, active, sends))
      ensures IsMaster() ==> forall id :: (exists x :: x in active && x.nodeId == id)
                                     <==> id in reachable && id in nodes.nodes && N.IsActive(nodes.nodes[id].info)
    {
      order, active := [], [];
      if !IsMaster() {
        return;
      }
      var infos := nodes.ActiveNodes();
      var chosen := [];
      var k := 0;
      while k < |infos|
        invariant 0 <= k <= |infos| && DistinctIds(chosen)
        invariant forall x :: x in chosen <==> x in infos[..k] && x.nodeId in reachable
      {
        if infos[k].nodeId in reachable {
          chosen := chosen + [infos[k]];
        }
        k := k + 1;
      }
      active := chosen;
      order := master.Tick(chosen, sends);
    }
  }

  // ----- the invariant -----

  /** Every assigned segment's node is in the table and not dead. */
  ghost predicate Manned(s: App) {
    && N.Filed(s.t)
    && forall j, i: nat, n :: OnBooks(s.m.jobs, j, i, n) ==> n in s.t && s.t[n].info.status != Dead
  }

  /** No new assignment, and none left on the nodes in `gone`. */
  ghost predicate Fewer(jobs: map<JobId, JobSchedule>, jobs': map<JobId, JobSchedule>, gone: set<NodeId>) {
    forall j, i: nat, n :: OnBooks(jobs', j, i, n) ==> OnBooks(jobs, j, i, n) && n !in gone
  }

  lemma ReassignEmpties(jobs: map<JobId, JobSchedule>, dead: NodeId, moved: map<JobId, seq<nat>>)
    requires Moves(jobs, dead, moved) && moved.Keys == jobs.Keys
    ensures Fewer(jobs, ReassignAll(jobs, moved), {dead})
  {
    forall j, i: nat, n | OnBooks(ReassignAll(jobs, moved), j, i, n)
      ensures OnBooks(jobs, j, i, n) && n != dead
    {
      assert i !in moved[j];
    }
  }

  lemma {:induction false} EvacuateEmpties(jobs: map<JobId, JobSchedule>, dead: seq<NodeId>, moves: seq<map<JobId, seq<nat>>>)
    requires Evacuates(jobs, dead, moves)
    ensures Fewer(jobs, Evacuate(jobs, dead, moves), ToSet(dead)) && Evacuate(jobs, dead, moves).Keys == jobs.Keys
    decreases |dead|
  {
    if dead != [] {
      var k := |dead| - 1;
      EvacuateEmpties(jobs, dead[..k], moves[..k]);
      var mid := Evacuate(jobs, dead[..k], moves[..k]);
      ReassignEmpties(mid, dead[k], moves[k]);
      assert dead == dead[..k] + [dead[k]];
      assert ToSet(dead) == ToSet(dead[..k]) + {dead[k]};
    }
  }

  /** A scheduling call assigns only to nodes on its list that are Active. */
  lemma {:induction false} RecordFrom(table: map<nat, NodeId>, a: seq<Assignment>, j: JobId, i: nat)
    requires i in Record(table, a, j)
    ensures (i in table && table[i] == Record(table, a, j)[i]) || exists x :: x in a && x.nodeId == Record(table, a, j)[i]
    decreases |a|
  {
    if a != [] {
      var last := a[|a| - 1];
      if last.jobId != j || last.segment.id != i {
        RecordFrom(table, a[..|a| - 1], j, i);
      } else {
        assert last in a;
      }
    }
  }

  lemma AssignedNodesActive(jobs: map<JobId, JobSchedule>, order: seq<JobId>, nodes: seq<NodeInfo>)
    requires Enumerates(order, jobs.Keys) && DistinctIds(nodes)
    ensures forall x :: x in Greedy(jobs, order, Supply(nodes)).1 ==>
              exists h :: h in nodes && h.nodeId == x.nodeId && h.status == Active
  {
    var a := Greedy(jobs, order, Supply(nodes)).1;
    var hosts := CallRespectsNodes(jobs, order, nodes);
    forall x | x in a
      ensures exists h :: h in nodes && h.nodeId == x.nodeId && h.status == Active
    {
      var k :| 0 <= k < |a| && a[k] == x;
      assert hosts[k] in nodes && hosts[k].nodeId == x.nodeId;
    }
  }

  lemma {:induction false} DispatchFewer(m: MasterState, a: seq<Assignment>, sends: nat -> bool)
    requires forall x :: x in a ==> x.jobId in m.jobs
    ensures Fewer(m.jobs, Dispatch(m, a, sends).0.jobs, {})
    decreases |a|
  {
    if a != [] {
      DispatchFewer(m, a[..|a| - 1], sends);
    }
  }

  lemma ScheduleManned(s: App, order: seq<JobId>, nodes: seq<NodeInfo>, sends: nat -> bool)
    requires Manned(s) && Possible(s, Schedule(order, nodes, sends))
    ensures Manned(Apply(s, Schedule(order, nodes, sends)))
  {
    var (jobs, a) := Greedy(s.m.jobs, order, Supply(nodes));
    CallHandsOut(s.m.jobs, order, Supply(nodes));
    AssignedNodesActive(s.m.jobs, order, nodes);
    AssignedJobsKnown(s.m.jobs, order, Supply(nodes));
    DispatchFewer(s.m.(jobs := jobs), a, sends);
    var s' := Apply(s, Schedule(order, nodes, sends));
    forall j, i: nat, n | OnBooks(s'.m.jobs, j, i, n)
      ensures n in s.t && s.t[n].info.status != Dead
    {
      assert OnBooks(jobs, j, i, n);
      RecordFrom(s.m.jobs[j].assignee, a, j, i);
      assert OnBooks(s.m.jobs, j, i, n) || exists x :: x in a && x.nodeId == n;
    }
  }

  lemma MannedKept(s: App, step: Step)
    requires Manned(s) && Possible(s, step)
    ensures Manned(Apply(s, step))
  {
    if step.Schedule? {
      ScheduleManned(s, step.order, step.nodes, step.sends);
    } else if step.Health? {
      EvacuateEmpties(s.m.jobs, step.dead, step.moves);
    } else if step.Leave? {
      ReassignEmpties(s.m.jobs, step.id, step.moved);
    } else {
      assert Fewer(s.m.jobs, Apply(s, step).m.jobs, {});
    }
  }

  // ----- who is taken off a node, and who is not -----

  lemma ReassignKeeps(jobs: map<JobId, JobSchedule>, dead: NodeId, moved: map<JobId, seq<nat>>, n: NodeId)
    requires Moves(jobs, dead, moved) && dead != n
    ensures forall j, i: nat :: OnBooks(jobs, j, i, n) ==> OnBooks(ReassignAll(jobs, moved), j, i, n)
  {
  }

  lemma {:induction false} EvacuateKeeps(jobs: map<JobId, JobSchedule>, dead: seq<NodeId>, moves: seq<map<JobId, seq<nat>>>, n: NodeId)
    requires Evacuates(jobs, dead, moves) && n !in dead
    ensures forall j, i: nat :: OnBooks(jobs, j, i, n) ==> OnBooks(Evacuate(jobs, dead, moves), j, i, n)
    decreases |dead|
  {
    if dead != [] {
      var k := |dead| - 1;
      assert dead[k] in dead;
      EvacuateKeeps(jobs, dead[..k], moves[..k], n);
      ReassignKeeps(Evacuate(jobs, dead[..k], moves[..k]), dead[k], moves[k], n);
    }
  }

  // ----- main results -----

  /** In every run, each assigned segment's node is registered and not dead. */
  lemma {:induction false} NoStrandedAssignment(s: App, steps: seq<Step>, s': App)
    requires Manned(s) && Run(s, steps, s')
    ensures Manned(s')
    decreases |steps|
  {
    if steps != [] {
      MannedKept(s, steps[0]);
      NoStrandedAssignment(Apply(s, steps[0]), steps[1..], s');
    }
  }

  /** What a run does to the node table. */
  function TableEvents(steps: seq<Step>): seq<N.Event> {
    if steps == [] then []
    else
      (match steps[0]
       case Identified(info, now) => [N.Registered(info, now)]
       case Heartbeat(id, load, now) => [N.Heard(id, load, now)]
       case Health(now, _, _) => [N.Check(now)]
       case Leave(id, _) => [N.Removed(id)]
       case _ => [])
      + TableEvents(steps[1..])
  }

  lemma {:induction false} TableRun(s: App, steps: seq<Step>, s': App)
    requires Run(s, steps, s')
    ensures s'.t == N.Run(s.t, TableEvents(steps), s.self, s.timeout) && s'.self == s.self && s'.timeout == s.timeout
    decreases |steps|
  {
    if steps != [] {
      var s1 := Apply(s, steps[0]);
      TableRun(s1, steps[1..], s');
      var rest := TableEvents(steps[1..]);
      if TableEvents(steps) != rest {
        assert TableEvents(steps)[1..] == rest;
        assert s1.t == N.Apply(s.t, TableEvents(steps)[0], s.self, s.timeout);
      } else {
        SameTable(s, steps[0]);
      }
    }
  }

  lemma SameTable(s: App, step: Step)
    requires Possible(s, step) && !step.Identified? && !step.Heartbeat? && !step.Health? && !step.Leave?
    ensures Apply(s, step).t == s.t
  {
  }

  /** A node that was declared dead holds no segment until it registers or is heard again. */
  lemma DeadNodeHoldsNothing(s: App, steps: seq<Step>, s': App, n: NodeId)
    requires Manned(s) && Run(s, steps, s') && N.Silent(s.t, n)
    requires forall e :: e in TableEvents(steps) ==> !N.SignOfLife(e, n)
    ensures forall j, i: nat :: !OnBooks(s'.m.jobs, j, i, n)
  {
    NoStrandedAssignment(s, steps, s');
    TableRun(s, steps, s');
    N.SilentUntilHeard(s.t, TableEvents(steps), s.self, s.timeout, n);
  }

  /**
   Recovery: the first health tick that comes more than the timeout after a node was last
   heard takes every segment off that node.
   */
  lemma SilentNodeReleased(s: App, steps: seq<Step>, s1: App, health: Step, n: NodeId)
    requires Manned(s) && Run(s, steps, s1) && n in s.t && n != s.self
    requires forall e :: e in TableEvents(steps) ==> !N.SignOfLife(e, n) && !(e.Removed? && e.id == n)
    requires health.Health? && Possible(s1, health) && health.now > s.t[n].lastHeartbeat + s.timeout
    ensures forall j, i: nat :: !OnBooks(Apply(s1, health).m.jobs, j, i, n)
  {
    NoStrandedAssignment(s, steps, s1);
    MannedKept(s1, health);
    TableRun(s, steps, s1);
    N.SilentNodeIsDetected(s.t, TableEvents(steps), s.self, s.timeout, n, health.now);
  }

  /**
   No false alarm: as long as a node is heard within the timeout before every health tick, it
   is never declared dead, and no health tick takes a segment off it.
   */
  lemma HeardNodeKeepsWork(s: App, steps: seq<Step>, s1: App, health: Step, n: NodeId)
    requires Run(s, steps, s1) && health.Health? && Possible(s1, health)
    requires n in s.t && s.t[n].info.status != Dead
    requires N.Punctual(TableEvents(steps), n, s.t[n].lastHeartbeat, s.timeout)
    requires health.now <= N.LastHeard(TableEvents(steps), n, s.t[n].lastHeartbeat) + s.timeout
    ensures n !in health.dead && n in s1.t && s1.t[n].info.status != Dead
    ensures n in Apply(s1, health).t && Apply(s1, health).t[n] == s1.t[n]
    ensures forall j, i: nat :: OnBooks(s1.m.jobs, j, i, n) ==> OnBooks(Apply(s1, health).m.jobs, j, i, n)
  {
    TableRun(s, steps, s1);
    N.PunctualNodeLives(s.t, TableEvents(steps), s.self, s.timeout, n);
    N.HeardNodeUntouched(s1.t, s.self, s.timeout, health.now, n);
    EvacuateKeeps(s1.m.jobs, health.dead, health.moves, n);
  }

  /**
   Gossip installs table entries as another node reports them. It strands segments exactly
   when it installs a dead entry for a node that has some.
   */
  lemma GossipStrands(s: App, info: NodeInfo, now: nat)
    requires Manned(s)
    ensures Manned(s.(t := N.Register(s.t, info, now)))
       <==> (info.status == Dead ==> forall j, i: nat :: !OnBooks(s.m.jobs, j, i, info.nodeId))
  {
    var s' := s.(t := N.Register(s.t, info, now));
    if Manned(s') && info.status == Dead {
      forall j, i: nat
        ensures !OnBooks(s.m.jobs, j, i, info.nodeId)
      {
        assert s'.t[info.nodeId].info.status == Dead;
      }
    }
  }

  // ----- what gossip strands stays stranded -----

  /** The segment is assigned to a dead node and not queued. */
  ghost predicate Stuck(s: App, j: JobId, i: nat, n: NodeId) {
    OnBooks(s.m.jobs, j, i, n) && Occurs(s.m.jobs[j].pending, i) == 0 && n in s.t && s.t[n].info.status == Dead
  }

  /** The step revives or forgets node `n`, reports the segment, or replaces its job. */
  predicate Frees(step: Step, j: JobId, i: nat, n: NodeId) {
    match step
    case Identified(info, _) => info.nodeId == n
    case Heartbeat(id, _, _) => id == n
    case Leave(id, _) => id == n
    case Submitted(job, _) => job == j
    case Completed(job, result, _) => job == j && result.segmentId == i
    case Broken(job, segment, _) => job == j && segment == i
    case _ => false
  }

  /** The segment is assigned to `n` and not queued. */
  predicate Held(jobs: map<JobId, JobSchedule>, j: JobId, i: nat, n: NodeId) {
    OnBooks(jobs, j, i, n) && Occurs(jobs[j].pending, i) == 0
  }

  lemma {:induction false} PlaceholdersWithout(ids: seq<nat>, i: nat)
    requires i !in ids
    ensures Occurs(Placeholders(ids), i) == 0
  {
    if ids != [] {
      PlaceholdersWithout(ids[1..], i);
      assert Placeholders(ids)[1..] == Placeholders(ids[1..]);
      assert Placeholders(ids)[0].id == ids[0];
    }
  }

  lemma ReassignHolds(jobs: map<JobId, JobSchedule>, dead: NodeId, moved: map<JobId, seq<nat>>, j: JobId, i: nat, n: NodeId)
    requires Held(jobs, j, i, n) && dead != n && Moves(jobs, dead, moved)
    ensures Held(ReassignAll(jobs, moved), j, i, n)
  {
    if j in moved {
      PlaceholdersWithout(moved[j], i);
      OccursAppend(jobs[j].pending, Placeholders(moved[j]), i);
    }
  }

  lemma {:induction false} EvacuateHolds(jobs: map<JobId, JobSchedule>, dead: seq<NodeId>, moves: seq<map<JobId, seq<nat>>>,
                                         j: JobId, i: nat, n: NodeId)
    requires Evacuates(jobs, dead, moves) && Held(jobs, j, i, n) && n !in dead
    ensures Held(Evacuate(jobs, dead, moves), j, i, n)
    decreases |dead|
  {
    if dead != [] {
      var k := |dead| - 1;
      assert dead[k] in dead;
      EvacuateHolds(jobs, dead[..k], moves[..k], j, i, n);
      ReassignHolds(Evacuate(jobs, dead[..k], moves[..k]), dead[k], moves[k], j, i, n);
    }
  }

  lemma {:induction false} DispatchHolds(m: MasterState, a: seq<Assignment>, sends: nat -> bool, j: JobId, i: nat, n: NodeId)
    requires (forall x :: x in a ==> x.jobId in m.jobs && !(x.jobId == j && x.segment.id == i)) && Held(m.jobs, j, i, n)
    ensures Held(Dispatch(m, a, sends).0.jobs, j, i, n)
    decreases |a|
  {
    if a != [] {
      var x := a[|a| - 1];
      DispatchHolds(m, a[..|a| - 1], sends, j, i, n);
      assert x in a;
      var mid := Dispatch(m, a[..|a| - 1], sends).0;
      OccursAppend(mid.jobs[x.jobId].pending, [x.segment], i);
      assert Occurs([x.segment], i) == Bit(x.segment.id == i) + Occurs([], i);
    }
  }

  lemma {:induction false} NotAmongSegments(a: seq<Assignment>, j: JobId, i: nat)
    requires Occurs(SegmentsOf(a, j), i) == 0
    ensures forall x :: x in a ==> !(x.jobId == j && x.segment.id == i)
    decreases |a|
  {
    if a != [] {
      var last, front := a[|a| - 1], a[..|a| - 1];
      var tail := if last.jobId == j then [last.segment] else [];
      OccursAppend(SegmentsOf(front, j), tail, i);
      assert Occurs(tail, i) == Bit(last.jobId == j && last.segment.id == i);
      NotAmongSegments(front, j, i);
      assert a == front + [last];
    }
  }

  lemma CallHolds(js: JobSchedule, js': JobSchedule, a: seq<Assignment>, j: JobId, i: nat, n: NodeId)
    requires HandsOut(js, js', a, j) && i in js.assignee && js.assignee[i] == n && Occurs(js.pending, i) == 0
    ensures i in js'.assignee && js'.assignee[i] == n && Occurs(js'.pending, i) == 0
    ensures Occurs(SegmentsOf(a, j), i) == 0
  {
    OccursAppend(SegmentsOf(a, j), js'.pending, i);
    RecordCounts(js.assignee, a, j, i, n);
  }

  lemma ScheduleHolds(m: MasterState, order: seq<JobId>, nodes: seq<NodeInfo>, sends: nat -> bool, j: JobId, i: nat, n: NodeId)
    requires Enumerates(order, m.jobs.Keys) && Held(m.jobs, j, i, n)
    ensures Held(RunScheduler(m, order, nodes, sends).0.jobs, j, i, n)
  {
    var (jobs, a) := Greedy(m.jobs, order, Supply(nodes));
    CallHandsOut(m.jobs, order, Supply(nodes));
    AssignedJobsKnown(m.jobs, order, Supply(nodes));
    CallHolds(m.jobs[j], jobs[j], a, j, i, n);
    NotAmongSegments(a, j, i);
    DispatchHolds(m.(jobs := jobs), a, sends, j, i, n);
  }

  lemma StuckKept(s: App, step: Step, j: JobId, i: nat, n: NodeId)
    requires Stuck(s, j, i, n) && Possible(s, step) && !Frees(step, j, i, n)
    ensures Stuck(Apply(s, step), j, i, n)
  {
    match step {
      case Health(now, dead, moves) => EvacuateHolds(s.m.jobs, dead, moves, j, i, n);
      case Leave(id, moved) => ReassignHolds(s.m.jobs, id, moved, j, i, n);
      case Schedule(order, nodes, sends) => ScheduleHolds(s.m, order, nodes, sends, j, i, n);
      case _ =>
    }
  }

  /**
   A segment on a node for which gossip installed a dead entry stays there, whatever health
   ticks follow, until the node is heard of or leaves, the segment is reported, or its job is
   submitted anew.
   */
  lemma {:induction false} StrandedForGood(s: App, steps: seq<Step>, s': App, j: JobId, i: nat, n: NodeId)
    requires Stuck(s, j, i, n) && Run(s, steps, s') && forall step :: step in steps ==> !Frees(step, j, i, n)
    ensures Stuck(s', j, i, n)
    decreases |steps|
  {
    if steps != [] {
      assert steps[0] in steps;
      StuckKept(s, steps[0], j, i, n);
      StrandedForGood(Apply(s, steps[0]), steps[1..], s', j, i, n);
    }
  }
}
