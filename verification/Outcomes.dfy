/**
 The master's books against what really happened: what it counts as completed or failed is
 what a worker ended with, nothing that a worker ended with is forgotten, and what workers
 are sent to encode are the segments that were submitted (cluster/src/main.rs).
 */
module Outcomes {
  import opened Common
  import opened Collections
  import opened Scheduler
  import opened ScheduleCall
  import opened Master
  import opened Placement
  import opened Cluster

  /** A worker on node `n` ended with `o` for segment `i` of job `j`. */
  ghost predicate Ended(past: seq<Step>, n: NodeId, i: nat, j: JobId, o: Outcome) { FinishWorker(n, i, j, o) in past }

  /** A worker encoded the segment with this result. */
  ghost predicate WasEncoded(past: seq<Step>, j: JobId, r: SegmentResult) {
    exists url :: Ended(past, r.nodeId, r.segmentId, j, Encoded(r.workerId, r.framesEncoded, r.outputSizeBytes, url))
  }

  /** A worker failed on the segment with this error. */
  ghost predicate HasErred(past: seq<Step>, j: JobId, i: nat, error: string) {
    exists n :: Ended(past, n, i, j, Error(error))
  }

  /** A report in flight tells what a worker ended with; an assignment is of a submitted segment. */
  ghost predicate TrueMail(past: seq<Step>, x: Mail) {
    match x
    case Assign(_, job, segment) => Submitted(past, job, segment)
    case Complete(job, r, url) =>
      Ended(past, r.nodeId, r.segmentId, job, Encoded(r.workerId, r.framesEncoded, r.outputSizeBytes, url))
    case Failed(job, i, n, error) => Ended(past, n, i, job, Error(error))
  }

  ghost predicate Submitted(past: seq<Step>, j: JobId, segment: SegmentDescriptor) {
    exists s :: s in past && s.SubmitJob? && s.job == j && segment in s.segments
  }

  /** What a job's table says is true of the run so far. */
  ghost predicate TrueJob(past: seq<Step>, j: JobId, js: JobSchedule) {
    && (forall i :: i in js.completed ==> js.completed[i].segmentId == i && WasEncoded(past, j, js.completed[i]))
    && (forall i :: i in js.failed ==> HasErred(past, j, i, js.failed[i]))
    && (forall x :: x in js.pending ==> Submitted(past, j, x))
  }

  ghost predicate TrueBooks(past: seq<Step>, c: Cluster) {
    && (forall j :: j in c.m.jobs ==> TrueJob(past, j, c.m.jobs[j]))
    && (forall x :: x in c.net ==> TrueMail(past, x))
  }

  // ----- a longer past -----

  lemma LaterTrue(past: seq<Step>, s: Step, c: Cluster)
    requires TrueBooks(past, c)
    ensures TrueBooks(past + [s], c)
  {
    forall j | j in c.m.jobs
      ensures TrueJob(past + [s], j, c.m.jobs[j])
    {
      LaterTrueJob(past, s, j, c.m.jobs[j]);
    }
    forall x | x in c.net
      ensures TrueMail(past + [s], x)
    {
      if x.Assign? {
        LaterSubmitted(past, s, x.job, x.segment);
      }
    }
  }

  lemma LaterSubmitted(past: seq<Step>, s: Step, j: JobId, x: SegmentDescriptor)
    requires Submitted(past, j, x)
    ensures Submitted(past + [s], j, x)
  {
    var t :| t in past && t.SubmitJob? && t.job == j && x in t.segments;
    assert t in past + [s];
  }

  lemma LaterTrueJob(past: seq<Step>, s: Step, j: JobId, js: JobSchedule)
    requires TrueJob(past, j, js)
    ensures TrueJob(past + [s], j, js)
  {
    forall i | i in js.completed
      ensures WasEncoded(past + [s], j, js.completed[i])
    {
      var r := js.completed[i];
      var url :| Ended(past, r.nodeId, r.segmentId, j, Encoded(r.workerId, r.framesEncoded, r.outputSizeBytes, url));
      assert Ended(past + [s], r.nodeId, r.segmentId, j, Encoded(r.workerId, r.framesEncoded, r.outputSizeBytes, url));
    }
    forall i | i in js.failed
      ensures HasErred(past + [s], j, i, js.failed[i])
    {
      var n :| Ended(past, n, i, j, Error(js.failed[i]));
      assert Ended(past + [s], n, i, j, Error(js.failed[i]));
    }
    forall x | x in js.pending
      ensures Submitted(past + [s], j, x)
    {
      LaterSubmitted(past, s, j, x);
    }
  }

  // ----- each step -----

  lemma SubmitTrue(past: seq<Step>, c: Cluster, s: Step)
    requires TrueBooks(past, c) && s.SubmitJob? && Possible(c, s) && s in past
    ensures TrueBooks(past, Apply(c, s))
  {
    SortCorrect(s.segments, HarderFirst());
    var js := NewJob(s.segments);
    forall x | x in js.pending
      ensures Submitted(past, s.job, x)
    {
      assert x in multiset(js.pending) && x in multiset(s.segments);
    }
  }

  lemma FinishTrue(past: seq<Step>, c: Cluster, s: Step)
    requires TrueBooks(past, c) && s.FinishWorker? && Possible(c, s) && s in past
    ensures TrueBooks(past, Apply(c, s))
  {
    var report := ReportOf(s.node, s.job, s.id, s.outcome);
    assert TrueMail(past, report);
    assert forall x :: x in c.net + [report] ==> x in c.net || x == report;
  }

  lemma CompleteTrue(past: seq<Step>, j: JobId, js: JobSchedule, r: SegmentResult)
    requires TrueJob(past, j, js) && WasEncoded(past, j, r)
    ensures TrueJob(past, j, js.MarkComplete(r))
  {
  }

  lemma FailTrue(past: seq<Step>, j: JobId, js: JobSchedule, i: nat, error: string)
    requires TrueJob(past, j, js) && HasErred(past, j, i, error)
    ensures TrueJob(past, j, js.MarkFailed(i, error))
  {
  }

  lemma WithoutMembers(net: seq<Mail>, at: nat)
    requires at < |net|
    ensures forall x :: x in Without(net, at) ==> x in net
  {
  }

  lemma TakeTrue(past: seq<Step>, c: Cluster, s: Step)
    requires TrueBooks(past, c) && s.TakeReport? && Possible(c, s)
    ensures TrueBooks(past, Apply(c, s))
  {
    var x := c.net[s.at];
    assert TrueMail(past, x);
    WithoutMembers(c.net, s.at);
    var jobs, jobs' := c.m.jobs, Apply(c, s).m.jobs;
    assert jobs' == Taken(c.m, x).jobs;
    forall j | j in jobs'
      ensures TrueJob(past, j, jobs'[j])
    {
      assert TrueJob(past, j, jobs[j]);
      if j == Subject(x).0 && x.Complete? {
        assert WasEncoded(past, j, x.result);
        CompleteTrue(past, j, jobs[j], x.result);
      } else if j == Subject(x).0 {
        assert HasErred(past, j, x.id, x.error);
        FailTrue(past, j, jobs[j], x.id, x.error);
      }
    }
  }

  lemma {:induction false} DispatchSends(past: seq<Step>, m: MasterState, a: seq<Assignment>, sends: nat -> bool)
    requires forall x :: x in a ==> x.jobId in m.jobs && Submitted(past, x.jobId, x.segment)
    requires forall j, x :: j in m.jobs && x in m.jobs[j].pending ==> Submitted(past, j, x)
    ensures forall x :: x in Dispatch(m, a, sends).1 ==> x.Assign? && Submitted(past, x.job, x.segment)
    ensures forall j, x :: j in m.jobs && x in Dispatch(m, a, sends).0.jobs[j].pending ==> Submitted(past, j, x)
    decreases |a|
  {
    if a != [] {
      var k := |a| - 1;
      DispatchSends(past, m, a[..k], sends);
      assert a[k] in a;
      SendSends(past, Dispatch(m, a[..k], sends).0, a[k], sends(k));
    }
  }

  lemma SendSends(past: seq<Step>, m: MasterState, x: Assignment, reaches: bool)
    requires x.jobId in m.jobs && Submitted(past, x.jobId, x.segment)
    requires forall j, y :: j in m.jobs && y in m.jobs[j].pending ==> Submitted(past, j, y)
    ensures forall y :: y in Send(m, x, reaches).1 ==> y.Assign? && Submitted(past, y.job, y.segment)
    ensures forall j, y :: j in m.jobs && y in Send(m, x, reaches).0.jobs[j].pending ==> Submitted(past, j, y)
  {
  }

  /** What a call hands out, and what it leaves queued, was queued before. */
  lemma CallTakesQueued(past: seq<Step>, jobs: map<JobId, JobSchedule>, order: seq<JobId>, supply: seq<NodeId>)
    requires Enumerates(order, jobs.Keys)
    requires forall j, x :: j in jobs && x in jobs[j].pending ==> Submitted(past, j, x)
    ensures forall x :: x in Greedy(jobs, order, supply).1 ==> x.jobId in jobs && Submitted(past, x.jobId, x.segment)
    ensures forall j, x :: j in jobs && x in Greedy(jobs, order, supply).0[j].pending ==> Submitted(past, j, x)
  {
    var (jobs', a) := Greedy(jobs, order, supply);
    CallHandsOut(jobs, order, supply);
    forall x | x in a
      ensures x.jobId in jobs && Submitted(past, x.jobId, x.segment)
    {
      InSegments(a, x.jobId, x);
      assert x.segment in SegmentsOf(a, x.jobId) + jobs'[x.jobId].pending;
      assert x.segment in jobs[x.jobId].pending;
    }
    forall j, x | j in jobs && x in jobs'[j].pending
      ensures Submitted(past, j, x)
    {
      assert x in SegmentsOf(a, j) + jobs'[j].pending;
      assert x in jobs[j].pending;
    }
  }

  lemma TickTrue(past: seq<Step>, c: Cluster, s: Step)
    requires Inv(c) && TrueBooks(past, c) && s.Tick? && Possible(c, s)
    ensures TrueBooks(past, Apply(c, s))
  {
    TickBooks(c.m, s.order, s.nodes, s.sends);
    TickQueues(past, c.m, s);
    var (m', mail) := RunScheduler(c.m, s.order, s.nodes, s.sends);
    forall j | j in m'.jobs
      ensures TrueJob(past, j, m'.jobs[j])
    {
      assert TrueJob(past, j, c.m.jobs[j]);
    }
  }

  lemma TickQueues(past: seq<Step>, m: MasterState, s: Step)
    requires s.Tick? && Enumerates(s.order, m.jobs.Keys)
    requires forall j :: j in m.jobs ==> TrueJob(past, j, m.jobs[j])
    ensures var (m', mail) := RunScheduler(m, s.order, s.nodes, s.sends);
            && m'.jobs.Keys == m.jobs.Keys
            && (forall x :: x in mail ==> TrueMail(past, x))
            && (forall j, x :: j in m.jobs && x in m'.jobs[j].pending ==> Submitted(past, j, x))
  {
    forall j, x | j in m.jobs && x in m.jobs[j].pending
      ensures Submitted(past, j, x)
    {
      assert TrueJob(past, j, m.jobs[j]);
    }
    CallTakesQueued(past, m.jobs, s.order, Supply(s.nodes));
    var (jobs, a) := Greedy(m.jobs, s.order, Supply(s.nodes));
    AssignedJobsKnown(m.jobs, s.order, Supply(s.nodes));
    DispatchSends(past, m.(jobs := jobs), a, s.sends);
  }

  lemma StepTrue(past: seq<Step>, c: Cluster, s: Step)
    requires Inv(c) && TrueBooks(past, c) && Possible(c, s)
    ensures TrueBooks(past + [s], Apply(c, s))
  {
    LaterTrue(past, s, c);
    assert s in past + [s];
    match s {
      case SubmitJob(_, _) => SubmitTrue(past + [s], c, s);
      case Tick(_, _, _) => TickTrue(past + [s], c, s);
      case StartWorker(at) => WithoutMembers(c.net, at);
      case FinishWorker(_, _, _, _) => FinishTrue(past + [s], c, s);
      case VanishWorker(_, _) =>
      case TakeReport(_) => TakeTrue(past + [s], c, s);
    }
  }

  // ----- nothing is forgotten -----

  /** The outcome is in the job's tables. */
  predicate InTables(jobs: map<JobId, JobSchedule>, n: NodeId, i: nat, j: JobId, o: Outcome) {
    match o
    case Encoded(w, frames, bytes, _) =>
      j in jobs && i in jobs[j].completed && jobs[j].completed[i] == SegmentResult(i, w, n, frames, bytes)
    case Error(message) => j in jobs && i in jobs[j].failed && jobs[j].failed[i] == message
  }

  /** The report of the outcome. */
  predicate InFlight(net: seq<Mail>, n: NodeId, i: nat, j: JobId, o: Outcome) {
    match o
    case Encoded(w, frames, bytes, url) => Complete(j, SegmentResult(i, w, n, frames, bytes), url) in net
    case Error(message) => Failed(j, i, n, message) in net
  }

  /** The outcome is in the job's tables, or its report is in flight. */
  predicate Kept(c: Cluster, n: NodeId, i: nat, j: JobId, o: Outcome) {
    InFlight(c.net, n, i, j, o) || InTables(c.m.jobs, n, i, j, o)
  }

  lemma ReportInFlight(net: seq<Mail>, n: NodeId, i: nat, j: JobId, o: Outcome)
    ensures InFlight(net, n, i, j, o) <==> ReportOf(n, j, i, o) in net
  {
  }

  lemma OtherMailStays(net: seq<Mail>, at: nat, x: Mail)
    requires at < |net| && x in net && x != net[at]
    ensures x in Without(net, at)
  {
    var k :| 0 <= k < |net| && net[k] == x;
    assert Without(net, at)[if k < at then k else k - 1] == x;
  }

  /** A segment with an outcome is not assigned, so no further report about it is in flight. */
  lemma DecidedIsDone(c: Cluster, at: nat)
    requires Inv(c) && at < |c.net| && !c.net[at].Assign?
    ensures var (j, i, _) := Subject(c.net[at]);
            j in c.m.jobs && i !in c.m.jobs[j].completed && i !in c.m.jobs[j].failed
  {
    var (j, i, n) := Subject(c.net[at]);
    MailIsBooked(c, at, j, i, n);
    assert Placed(c.m.jobs[j]);
    assert Places(c.m.jobs[j], i) == Bit(i < c.m.jobs[j].total);
  }

  lemma TakenEnters(m: MasterState, n: NodeId, i: nat, j: JobId, o: Outcome)
    requires j in m.jobs
    ensures InTables(Taken(m, ReportOf(n, j, i, o)).jobs, n, i, j, o)
  {
  }

  lemma TakenSpares(m: MasterState, report: Mail, n: NodeId, i: nat, j: JobId, o: Outcome)
    requires !report.Assign? && InTables(m.jobs, n, i, j, o)
    requires var (k, id, _) := Subject(report); k in m.jobs && id !in m.jobs[k].completed && id !in m.jobs[k].failed
    ensures InTables(Taken(m, report).jobs, n, i, j, o)
  {
  }

  lemma TakenKept(m: MasterState, net: seq<Mail>, at: nat, n: NodeId, i: nat, j: JobId, o: Outcome)
    requires at < |net| && !net[at].Assign? && (InFlight(net, n, i, j, o) || InTables(m.jobs, n, i, j, o))
    requires var (k, id, _) := Subject(net[at]); k in m.jobs && id !in m.jobs[k].completed && id !in m.jobs[k].failed
    ensures InFlight(Without(net, at), n, i, j, o) || InTables(Taken(m, net[at]).jobs, n, i, j, o)
  {
    var x := ReportOf(n, j, i, o);
    if InTables(m.jobs, n, i, j, o) {
      TakenSpares(m, net[at], n, i, j, o);
    } else if x == net[at] {
      assert Subject(x) == (j, i, n);
      TakenEnters(m, n, i, j, o);
    } else {
      ReportInFlight(net, n, i, j, o);
      OtherMailStays(net, at, x);
      ReportInFlight(Without(net, at), n, i, j, o);
    }
  }

  lemma TakeApplied(c: Cluster, s: Step)
    requires s.TakeReport? && Possible(c, s)
    ensures Apply(c, s).m.jobs == Taken(c.m, c.net[s.at]).jobs && Apply(c, s).net == Without(c.net, s.at)
  {
  }

  lemma TakeKeeps(c: Cluster, s: Step, n: NodeId, i: nat, j: JobId, o: Outcome)
    requires Inv(c) && s.TakeReport? && Possible(c, s) && Kept(c, n, i, j, o)
    ensures Kept(Apply(c, s), n, i, j, o)
  {
    DecidedIsDone(c, s.at);
    TakenKept(c.m, c.net, s.at, n, i, j, o);
    TakeApplied(c, s);
  }

  lemma StepKeeps(c: Cluster, s: Step, n: NodeId, i: nat, j: JobId, o: Outcome)
    requires Inv(c) && Possible(c, s) && Kept(c, n, i, j, o)
    ensures Kept(Apply(c, s), n, i, j, o)
  {
    match s {
      case SubmitJob(_, _) =>
      case Tick(order, nodes, sends) => TickBooks(c.m, order, nodes, sends);
      case StartWorker(at) =>
        var x := ReportOf(n, j, i, o);
        if x in c.net {
          OtherMailStays(c.net, at, x);
        }
      case FinishWorker(_, _, _, _) =>
      case VanishWorker(_, _) =>
      case TakeReport(_) => TakeKeeps(c, s, n, i, j, o);
    }
  }

  // ----- the announced end -----

  /** A job's end was announced as what it is, with its counts. */
  ghost predicate EndTold(e: Event, js: JobSchedule, hasStore: bool) {
    && |js.completed| + |js.failed| >= js.total && e.total == js.total
    && (e.JobFailed? <==> js.failed != map[]) && (e.JobFailed? ==> e.failed == |js.failed|)
    && (e.Assembling? ==> hasStore)
  }

  ghost predicate EndsTold(m: MasterState, hasStore: bool) {
    forall e :: e in m.log && !e.Progress? ==> e.job in m.jobs && EndTold(e, m.jobs[e.job], hasStore)
  }

  lemma {:induction false} NoEndings(log: seq<Event>, j: JobId)
    requires Endings(log, j) == 0
    ensures forall e :: e in log ==> !e.Ends(j)
    decreases |log|
  {
    if log != [] {
      NoEndings(log[..|log| - 1], j);
    }
  }

  lemma VerdictTold(m: MasterState, j: JobId, hasStore: bool)
    requires j in m.jobs
    ensures Verdict(m, j, hasStore).job == j
    ensures !Verdict(m, j, hasStore).Progress? ==> EndTold(Verdict(m, j, hasStore), m.jobs[j], hasStore)
  {
    assert |m.jobs[j].failed| == 0 <==> m.jobs[j].failed == map[] by {
      if |m.jobs[j].failed| == 0 {
        assert m.jobs[j].failed.Keys == {};
      }
    }
  }

  lemma TakeEndsTold(c: Cluster, s: Step)
    requires Inv(c) && EndsTold(c.m, c.hasStore) && s.TakeReport? && Possible(c, s)
    ensures EndsTold(Apply(c, s).m, c.hasStore)
  {
    var (j, i, n) := Subject(c.net[s.at]);
    MailIsBooked(c, s.at, j, i, n);
    var mid := ReportedSplit(c.m, c.net[s.at], c.hasStore, j, i, n);
    NoEndings(c.m.log, j);
    VerdictTold(mid, j, c.hasStore);
    var m' := Apply(c, s).m;
    assert m'.jobs == mid.jobs && m'.log == c.m.log + [Verdict(mid, j, c.hasStore)];
    forall e | e in m'.log && !e.Progress?
      ensures e.job in m'.jobs && EndTold(e, m'.jobs[e.job], c.hasStore)
    {
      assert e in c.m.log || e == Verdict(mid, j, c.hasStore);
    }
  }

  lemma StepEndsTold(c: Cluster, s: Step)
    requires Inv(c) && EndsTold(c.m, c.hasStore) && Possible(c, s)
    ensures EndsTold(Apply(c, s).m, c.hasStore) && Apply(c, s).hasStore == c.hasStore
  {
    match s {
      case Tick(order, nodes, sends) => TickBooks(c.m, order, nodes, sends);
      case TakeReport(_) => TakeEndsTold(c, s);
      case _ =>
    }
  }

  lemma {:induction false} RunEndsTold(c: Cluster, steps: seq<Step>, c': Cluster)
    requires Inv(c) && EndsTold(c.m, c.hasStore) && Run(c, steps, c')
    ensures EndsTold(c'.m, c'.hasStore) && Inv(c')
    decreases |steps|
  {
    if steps != [] {
      InvKept(c, steps[0]);
      StepEndsTold(c, steps[0]);
      RunEndsTold(Apply(c, steps[0]), steps[1..], c');
    }
  }

  // ----- main results -----

  lemma {:induction false} RunIsTrue(past: seq<Step>, c: Cluster, steps: seq<Step>, c': Cluster)
    requires Inv(c) && TrueBooks(past, c) && Run(c, steps, c')
    ensures TrueBooks(past + steps, c')
    decreases |steps|
  {
    if steps == [] {
      assert past + steps == past;
    } else {
      InvKept(c, steps[0]);
      StepTrue(past, c, steps[0]);
      RunIsTrue(past + [steps[0]], Apply(c, steps[0]), steps[1..], c');
      assert past + [steps[0]] + steps[1..] == past + steps;
    }
  }

  /**
   In every run: a segment is completed only if a worker encoded it, with that result; failed
   only if a worker ended with that error; and each queued segment, and each that is on its
   way to a worker, is one of those submitted for its job.
   */
  lemma BooksAreTrue(c: Cluster, steps: seq<Step>, c': Cluster, j: JobId)
    requires Fresh(c) && Run(c, steps, c') && j in c'.m.jobs
    ensures forall i :: i in c'.m.jobs[j].completed ==>
              var r := c'.m.jobs[j].completed[i];
              r.segmentId == i
              && exists url :: FinishWorker(r.nodeId, i, j, Encoded(r.workerId, r.framesEncoded, r.outputSizeBytes, url)) in steps
    ensures forall i :: i in c'.m.jobs[j].failed ==>
              exists n :: FinishWorker(n, i, j, Error(c'.m.jobs[j].failed[i])) in steps
    ensures forall x :: x in c'.m.jobs[j].pending ==> Submitted(steps, j, x)
    ensures forall n, x :: Assign(n, j, x) in c'.net ==> Submitted(steps, j, x)
  {
    FreshInv(c);
    RunIsTrue([], c, steps, c');
    assert [] + steps == steps;
    var js := c'.m.jobs[j];
    assert TrueJob(steps, j, js);
    forall i | i in js.completed
      ensures exists url :: FinishWorker(js.completed[i].nodeId, i, j,
                Encoded(js.completed[i].workerId, js.completed[i].framesEncoded, js.completed[i].outputSizeBytes, url)) in steps
    {
      var r := js.completed[i];
      assert WasEncoded(steps, j, r);
      var url :| Ended(steps, r.nodeId, r.segmentId, j, Encoded(r.workerId, r.framesEncoded, r.outputSizeBytes, url));
    }
    forall i | i in js.failed
      ensures exists n :: FinishWorker(n, i, j, Error(js.failed[i])) in steps
    {
      assert HasErred(steps, j, i, js.failed[i]);
      var n :| Ended(steps, n, i, j, Error(js.failed[i]));
    }
    forall n, x | Assign(n, j, x) in c'.net
      ensures Submitted(steps, j, x)
    {
      assert TrueMail(steps, Assign(n, j, x));
    }
  }

  /**
   And nothing is forgotten: what a worker ended with is in the completed or failed segments,
   unchanged, or on its way to the master, whatever else happens.
   */
  lemma {:induction false} OutcomesKept(c: Cluster, steps: seq<Step>, c': Cluster, n: NodeId, i: nat, j: JobId, o: Outcome)
    requires Inv(c) && Run(c, steps, c')
    requires Kept(c, n, i, j, o) || FinishWorker(n, i, j, o) in steps
    ensures Kept(c', n, i, j, o)
    decreases |steps|
  {
    if steps != [] {
      InvKept(c, steps[0]);
      if Kept(c, n, i, j, o) {
        StepKeeps(c, steps[0], n, i, j, o);
      }
      if steps[0] == FinishWorker(n, i, j, o) {
        assert Kept(Apply(c, steps[0]), n, i, j, o);
      }
      OutcomesKept(Apply(c, steps[0]), steps[1..], c', n, i, j, o);
    }
  }

  /** A finished job without failures has completed each of its segments. */
  lemma AllCompleted(js: JobSchedule, i: nat)
    requires Placed(js) && js.Finished() && js.failed == map[] && i < js.total
    ensures i in js.completed
  {
    FourCounts(js);
    assert Places(js, i) == 1;
  }

  /** Some worker failed on a segment of the job. */
  ghost predicate SomeErred(steps: seq<Step>, j: JobId) {
    exists n, i: nat, message :: FinishWorker(n, i, j, Error(message)) in steps
  }

  /** Some worker encoded segment `i` of the job. */
  ghost predicate SomeEncoded(steps: seq<Step>, j: JobId, i: nat) {
    exists n, w, frames, bytes, url :: FinishWorker(n, i, j, Encoded(w, frames, bytes, url)) in steps
  }

  lemma FailedErred(c: Cluster, steps: seq<Step>, c': Cluster, j: JobId)
    requires Fresh(c) && Run(c, steps, c') && j in c'.m.jobs && c'.m.jobs[j].failed != map[]
    ensures SomeErred(steps, j)
  {
    BooksAreTrue(c, steps, c', j);
    var failed := c'.m.jobs[j].failed;
    var i :| i in failed;
    var n :| FinishWorker(n, i, j, Error(failed[i])) in steps;
  }

  lemma CompletedEncoded(c: Cluster, steps: seq<Step>, c': Cluster, j: JobId, i: nat)
    requires Fresh(c) && Run(c, steps, c') && j in c'.m.jobs && i in c'.m.jobs[j].completed
    ensures SomeEncoded(steps, j, i)
  {
    BooksAreTrue(c, steps, c', j);
    var r := c'.m.jobs[j].completed[i];
    var url :| FinishWorker(r.nodeId, i, j, Encoded(r.workerId, r.framesEncoded, r.outputSizeBytes, url)) in steps;
  }

  /**
   The end that is announced is the truth: a failure exactly if some segment failed, and then
   a worker did fail on one; anything else only if each segment was encoded by a worker.
   */
  lemma AnnouncedTruth(c: Cluster, steps: seq<Step>, c': Cluster, e: Event)
    requires Fresh(c) && Run(c, steps, c') && e in c'.m.log && !e.Progress?
    ensures e.job in c'.m.jobs && e.total == c'.m.jobs[e.job].total
    ensures e.JobFailed? <==> c'.m.jobs[e.job].failed != map[]
    ensures e.JobFailed? ==> e.failed == |c'.m.jobs[e.job].failed| && SomeErred(steps, e.job)
    ensures !e.JobFailed? ==> forall i: nat :: i < e.total ==> i in c'.m.jobs[e.job].completed && SomeEncoded(steps, e.job, i)
    ensures e.Assembling? ==> c'.hasStore
  {
    FreshInv(c);
    RunEndsTold(c, steps, c');
    var js := c'.m.jobs[e.job];
    assert EndTold(e, js, c'.hasStore);
    if e.JobFailed? {
      FailedErred(c, steps, c', e.job);
    } else {
      forall i: nat | i < e.total
        ensures i in js.completed && SomeEncoded(steps, e.job, i)
      {
        AllCompleted(js, i);
        CompletedEncoded(c, steps, c', e.job, i);
      }
    }
  }
}
