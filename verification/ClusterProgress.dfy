/**
 Between scheduling ticks the cluster comes to rest, and each tick with free slots brings every
 job nearer to its end (cluster/src/main.rs).
 */
module ClusterProgress {
  import opened Common
  import opened Collections
  import opened Scheduler
  import opened ScheduleCall
  import opened Master
  import opened Placement
  import opened Cluster

  /** What is left to happen about a message: an assignment is started, finished and reported. */
  function Ahead(x: Mail): nat { if x.Assign? then 3 else 1 }

  function MailAhead(net: seq<Mail>): nat {
    if net == [] then 0 else MailAhead(net[..|net| - 1]) + Ahead(net[|net| - 1])
  }

  /** The steps left before the cluster rests, if nothing is submitted or scheduled. */
  function Work(c: Cluster): nat { MailAhead(c.net) + 2 * |c.running| }

  predicate Trigger(s: Step) { s.SubmitJob? || s.Tick? }

  ghost predicate Quiet(steps: seq<Step>) { forall s :: s in steps ==> !Trigger(s) }

  predicate AtRest(c: Cluster) { c.net == [] && c.running == map[] }

  lemma {:induction false} AheadAppend(a: seq<Mail>, b: seq<Mail>)
    ensures MailAhead(a + b) == MailAhead(a) + MailAhead(b)
    decreases |b|
  {
    if b == [] {
      assert a + b == a;
    } else {
      AheadAppend(a, b[..|b| - 1]);
      assert (a + b)[..|a + b| - 1] == a + b[..|b| - 1];
    }
  }

  lemma AheadOne(x: Mail)
    ensures MailAhead([x]) == Ahead(x)
  {
    assert [x][..0] == [];
  }

  lemma AheadWithout(net: seq<Mail>, at: nat)
    requires at < |net|
    ensures MailAhead(net) == MailAhead(Without(net, at)) + Ahead(net[at])
  {
    var front, x, back := net[..at], [net[at]], net[at + 1..];
    AroundOne(net, at);
    AheadAround(front, x, back);
    AheadOne(net[at]);
  }

  lemma AheadAround(front: seq<Mail>, x: seq<Mail>, back: seq<Mail>)
    ensures MailAhead(front + (x + back)) == MailAhead(front + back) + MailAhead(x)
  {
    AheadAppend(front, x + back);
    AheadAppend(x, back);
    AheadAppend(front, back);
  }

  lemma OneTaskLess(running: map<(NodeId, nat), JobId>, key: (NodeId, nat))
    requires key in running
    ensures |running - {key}| == |running| - 1
  {
    assert (running - {key}).Keys == running.Keys - {key};
    assert |running.Keys - {key}| == |running.Keys| - 1;
  }

  lemma OneTaskMore(running: map<(NodeId, nat), JobId>, key: (NodeId, nat), job: JobId)
    ensures |running[key := job]| <= |running| + 1
  {
    assert running[key := job].Keys == running.Keys + {key};
    assert key in running.Keys ==> running.Keys + {key} == running.Keys;
  }

  /** Every step other than a submission or a tick leaves less to do. */
  lemma WorkDecreases(c: Cluster, s: Step)
    requires Possible(c, s) && !Trigger(s)
    ensures Work(Apply(c, s)) < Work(c)
  {
    match s {
      case StartWorker(at) =>
        AheadWithout(c.net, at);
        OneTaskMore(c.running, (c.net[at].to, c.net[at].segment.id), c.net[at].job);
      case FinishWorker(node, id, job, outcome) =>
        var report := ReportOf(node, job, id, outcome);
        AheadAppend(c.net, [report]);
        AheadOne(report);
        OneTaskLess(c.running, (node, id));
      case VanishWorker(node, id) => OneTaskLess(c.running, (node, id));
      case TakeReport(at) => AheadWithout(c.net, at);
    }
  }

  /** Between triggers no run is longer than the work it starts with. */
  lemma {:induction false} DrainsInTime(c: Cluster, steps: seq<Step>, c': Cluster)
    requires Run(c, steps, c') && Quiet(steps)
    ensures |steps| + Work(c') <= Work(c)
    decreases |steps|
  {
    if steps != [] {
      assert steps[0] in steps;
      WorkDecreases(c, steps[0]);
      DrainsInTime(Apply(c, steps[0]), steps[1..], c');
    }
  }

  /** Unless the cluster rests, something other than a trigger can happen, and it rests when no work is left. */
  lemma RestOrStep(c: Cluster)
    ensures AtRest(c) <==> Work(c) == 0
    ensures AtRest(c) <==> forall s :: Possible(c, s) ==> Trigger(s)
  {
    if c.net != [] {
      assert Possible(c, if c.net[0].Assign? then StartWorker(0) else TakeReport(0));
    } else if c.running != map[] {
      var key :| key in c.running;
      assert Possible(c, VanishWorker(key.0, key.1));
      OneTaskLess(c.running, key);
    }
  }

  /**
   At rest after a run that lost no task, nothing is assigned, and a job is finished exactly
   when its queue is empty.
   */
  lemma RestIsClean(c: Cluster, steps: seq<Step>, c': Cluster, j: JobId)
    requires Fresh(c) && SmoothRun(c, steps, c') && AtRest(c') && j in c'.m.jobs
    ensures c'.m.jobs[j].assignee == map[] && (c'.m.jobs[j].Finished() <==> c'.m.jobs[j].pending == [])
  {
    FreshInv(c);
    SmoothRunSettled(c, steps, c');
    NothingAssigned(c', j);
    FourCounts(c'.m.jobs[j]);
  }

  lemma NothingAssigned(c: Cluster, j: JobId)
    requires Settled(c) && AtRest(c) && j in c.m.jobs
    ensures c.m.jobs[j].assignee == map[]
  {
    forall i: nat, n
      ensures !OnBooks(c.m.jobs, j, i, n)
    {
      assert Slack(c, j, i, n) == 0;
    }
    var assignee := c.m.jobs[j].assignee;
    assert forall i :: i in assignee ==> OnBooks(c.m.jobs, j, i, assignee[i]);
  }

  // ----- a tick brings jobs nearer to their end -----

  /** All segments that are queued. */
  ghost function QueueTotal(c: Cluster): nat { Sum(c.m.jobs.Keys, PendingCount(c.m.jobs)) }

  lemma {:induction false} TurnShortens(job: JobId, js: JobSchedule, supply: seq<NodeId>)
    ensures |AssignJob(job, js, supply).0.pending| + |AssignJob(job, js, supply).1| == |js.pending|
    decreases |supply|
  {
    if js.pending != [] && supply != [] {
      TurnShortens(job, js.Assign(supply[0]), supply[1..]);
    }
  }

  lemma {:induction false} QueuedSame(jobs: map<JobId, JobSchedule>, jobs': map<JobId, JobSchedule>, order: seq<JobId>)
    requires forall j :: j in order ==> j in jobs && j in jobs' && jobs'[j].pending == jobs[j].pending
    ensures Queued(jobs', order) == Queued(jobs, order)
    decreases |order|
  {
    if order != [] {
      QueuedSame(jobs, jobs', order[..|order| - 1]);
    }
  }

  /** What a call assigns, the queues lose. */
  lemma {:induction false} CallShortens(jobs: map<JobId, JobSchedule>, order: seq<JobId>, supply: seq<NodeId>)
    requires Distinct(order) && forall j :: j in order ==> j in jobs
    ensures Queued(Greedy(jobs, order, supply).0, order) + |Greedy(jobs, order, supply).1| == Queued(jobs, order)
    decreases |order|
  {
    if order != [] {
      var job, front := order[|order| - 1], order[..|order| - 1];
      CallShortens(jobs, front, supply);
      CallFillsSupply(jobs, front, supply);
      var (before, sofar) := Greedy(jobs, front, supply);
      TurnShortens(job, before[job], supply[|sofar|..]);
      var js := AssignJob(job, before[job], supply[|sofar|..]).0;
      assert job !in front;
      QueuedSame(before, before[job := js], front);
    }
  }

  lemma {:induction false} AllSent(m: MasterState, a: seq<Assignment>, sends: nat -> bool)
    requires (forall x :: x in a ==> x.jobId in m.jobs) && forall k: nat :: sends(k)
    ensures Dispatch(m, a, sends).0 == m
    decreases |a|
  {
    if a != [] {
      AllSent(m, a[..|a| - 1], sends);
    }
  }

  /** A tick whose sends all succeed shortens the queues by all that the free slots can take. */
  lemma TickShortens(c: Cluster, tick: Step)
    requires tick.Tick? && Possible(c, tick) && DistinctIds(tick.nodes) && forall k: nat :: tick.sends(k)
    ensures QueueTotal(Apply(c, tick)) + Min(QueueTotal(c), FreeSlots(tick.nodes)) == QueueTotal(c)
  {
    var jobs, order, supply := c.m.jobs, tick.order, Supply(tick.nodes);
    CallIsWorkConserving(jobs, order, tick.nodes);
    CallShortens(jobs, order, supply);
    AssignedJobsKnown(jobs, order, supply);
    var (jobs', a) := Greedy(jobs, order, supply);
    AllSent(c.m.(jobs := jobs'), a, tick.sends);
    QueuedIsSum(jobs, order, jobs.Keys);
    QueuedIsSum(jobs', order, jobs.Keys);
  }

  /** The other steps leave every queue as it is. */
  lemma QuietKeepsQueues(c: Cluster, s: Step)
    requires Possible(c, s) && !Trigger(s)
    ensures Apply(c, s).m.jobs.Keys == c.m.jobs.Keys
    ensures forall j :: j in c.m.jobs ==> Apply(c, s).m.jobs[j].pending == c.m.jobs[j].pending
  {
    if s.TakeReport? {
      TakenKeepsQueues(c.m, c.net[s.at]);
      assert Apply(c, s).m.jobs == Taken(c.m, c.net[s.at]).jobs;
    } else {
      assert Apply(c, s).m == c.m;
    }
  }

  lemma TakenKeepsQueues(m: MasterState, report: Mail)
    requires !report.Assign?
    ensures Taken(m, report).jobs.Keys == m.jobs.Keys
    ensures forall j :: j in m.jobs ==> Taken(m, report).jobs[j].pending == m.jobs[j].pending
  {
  }

  lemma {:induction false} QuietRunKeepsQueues(c: Cluster, steps: seq<Step>, c': Cluster)
    requires Run(c, steps, c') && Quiet(steps)
    ensures c'.m.jobs.Keys == c.m.jobs.Keys
    ensures forall j :: j in c.m.jobs ==> c'.m.jobs[j].pending == c.m.jobs[j].pending
    decreases |steps|
  {
    if steps != [] {
      assert steps[0] in steps;
      QuietKeepsQueues(c, steps[0]);
      QuietRunKeepsQueues(Apply(c, steps[0]), steps[1..], c');
    }
  }

  /** A round: a tick whose sends all succeed, then other steps until the cluster rests. */
  ghost predicate Round(c: Cluster, tick: Step, steps: seq<Step>, c': Cluster) {
    && tick.Tick? && Possible(c, tick) && DistinctIds(tick.nodes) && (forall k: nat :: tick.sends(k))
    && Quiet(steps) && Run(Apply(c, tick), steps, c') && AtRest(c')
  }

  /** Each round moves as many segments on as there are free slots, for good. */
  lemma RoundProgress(c: Cluster, tick: Step, steps: seq<Step>, c': Cluster)
    requires Round(c, tick, steps, c')
    ensures QueueTotal(c') + Min(QueueTotal(c), FreeSlots(tick.nodes)) == QueueTotal(c)
  {
    var c1 := Apply(c, tick);
    TickShortens(c, tick);
    QuietRunKeepsQueues(c1, steps, c');
    var order := Enumerate(c1.m.jobs.Keys);
    QueuedSame(c1.m.jobs, c'.m.jobs, order);
    QueuedIsSum(c1.m.jobs, order, c1.m.jobs.Keys);
    QueuedIsSum(c'.m.jobs, order, c1.m.jobs.Keys);
  }

  lemma NoQueueLeft(c: Cluster, j: JobId)
    requires QueueTotal(c) == 0 && j in c.m.jobs
    ensures c.m.jobs[j].pending == []
  {
    SumTake(c.m.jobs.Keys, PendingCount(c.m.jobs), j);
  }

  lemma AtRestEnded(c: Cluster, j: JobId)
    requires Inv(c) && Settled(c) && AtRest(c) && QueueTotal(c) == 0 && j in c.m.jobs
    ensures c.m.jobs[j].Finished() && Endings(c.m.log, j) == if c.m.jobs[j].total > 0 then 1 else 0
  {
    NothingAssigned(c, j);
    NoQueueLeft(c, j);
    var js := c.m.jobs[j];
    assert js.Finished() by {
      assert Placed(js);
      FourCounts(js);
    }
    assert Endings(c.m.log, j) == Bit(j in c.m.jobs && !Open(js));
  }

  /** At rest with empty queues, after a run that lost no task, every job with segments has ended, once. */
  lemma EveryJobEnds(c: Cluster, steps: seq<Step>, c': Cluster, j: JobId)
    requires Fresh(c) && SmoothRun(c, steps, c') && AtRest(c') && QueueTotal(c') == 0 && j in c'.m.jobs
    ensures c'.m.jobs[j].Finished() && Endings(c'.m.log, j) == if c'.m.jobs[j].total > 0 then 1 else 0
  {
    FreshInv(c);
    SmoothRunSettled(c, steps, c');
    AtRestEnded(c', j);
  }

  /** A round with a free slot that loses no task. */
  ghost predicate SmoothRound(c: Cluster, round: (Step, seq<Step>), c': Cluster) {
    && Round(c, round.0, round.1, c') && FreeSlots(round.0.nodes) > 0
    && SmoothRun(c, [round.0] + round.1, c')
  }

  /** Such rounds one after the other. */
  ghost predicate Rounds(c: Cluster, rounds: seq<(Step, seq<Step>)>, c': Cluster)
    decreases |rounds|
  {
    if rounds == [] then c' == c
    else exists mid :: SmoothRound(c, rounds[0], mid) && Rounds(mid, rounds[1..], c')
  }

  lemma SmoothRoundProgress(c: Cluster, round: (Step, seq<Step>), c': Cluster)
    requires Inv(c) && Settled(c) && SmoothRound(c, round, c')
    ensures Inv(c') && Settled(c') && AtRest(c')
    ensures QueueTotal(c') == 0 || QueueTotal(c') + 1 <= QueueTotal(c)
  {
    RoundProgress(c, round.0, round.1, c');
    SmoothRunSettled(c, [round.0] + round.1, c');
  }

  lemma {:induction false} RoundsProgress(c: Cluster, rounds: seq<(Step, seq<Step>)>, c': Cluster)
    requires Inv(c) && Settled(c) && Rounds(c, rounds, c')
    ensures Inv(c') && Settled(c') && (rounds != [] ==> AtRest(c'))
    ensures QueueTotal(c') == 0 || QueueTotal(c') + |rounds| <= QueueTotal(c)
    decreases |rounds|
  {
    if rounds != [] {
      var mid :| SmoothRound(c, rounds[0], mid) && Rounds(mid, rounds[1..], c');
      SmoothRoundProgress(c, rounds[0], mid);
      RoundsProgress(mid, rounds[1..], c');
    }
  }

  /**
   After at least as many rounds as there are queued segments every job with segments has
   ended, once, however few slots each round had free.
   */
  lemma {:induction false} RoundsEndAll(c: Cluster, rounds: seq<(Step, seq<Step>)>, c': Cluster, j: JobId)
    requires Inv(c) && Settled(c) && Rounds(c, rounds, c') && |rounds| >= QueueTotal(c) && rounds != [] && j in c'.m.jobs
    ensures c'.m.jobs[j].Finished() && Endings(c'.m.log, j) == if c'.m.jobs[j].total > 0 then 1 else 0
  {
    RoundsProgress(c, rounds, c');
    AtRestEnded(c', j);
  }
}
