/**
 A stable master, its workers and a reliable network (cluster/src/main.rs): no node leaves,
 messages are neither lost nor repeated but arrive in any order, and a send fails only by
 telling the sender.
 */
module Cluster {
  import opened Common
  import opened Collections
  import opened Scheduler
  import opened ScheduleCall
  import opened Master
  import opened Placement

  /** Worker tasks are keyed by node and segment id alone, whatever the job. */
  datatype Cluster = Cluster(m: MasterState, net: seq<Mail>, running: map<(NodeId, nat), JobId>, hasStore: bool)

  /** What a worker process ended with. */
  datatype Outcome = Encoded(workerId: nat, frames: nat, bytes: nat, url: string) | Error(message: string)

  /** The report that a worker node relays about a task of its own. */
  function ReportOf(node: NodeId, job: JobId, id: nat, o: Outcome): Mail {
    match o
    case Encoded(workerId, frames, bytes, url) => Complete(job, SegmentResult(id, workerId, node, frames, bytes), url)
    case Error(message) => Failed(job, id, node, message)
  }

  datatype Step =
    | SubmitJob(job: JobId, segments: seq<SegmentDescriptor>)
    | Tick(order: seq<JobId>, nodes: seq<NodeInfo>, sends: nat -> bool)
    | StartWorker(at: nat)
    | FinishWorker(node: NodeId, id: nat, job: JobId, outcome: Outcome)
    | VanishWorker(node: NodeId, id: nat)
    | TakeReport(at: nat)

  /** The job, segment and worker that a message is about. */
  function Subject(mail: Mail): (JobId, nat, NodeId) {
    match mail
    case Assign(to, job, segment) => (job, segment.id, to)
    case Complete(job, result, _) => (job, result.segmentId, result.nodeId)
    case Failed(job, id, node, _) => (job, id, node)
  }

  predicate About(mail: Mail, j: JobId, i: nat, n: NodeId) { Subject(mail) == (j, i, n) }

  function CountMail(net: seq<Mail>, j: JobId, i: nat, n: NodeId): nat {
    if net == [] then 0 else CountMail(net[..|net| - 1], j, i, n) + Bit(About(net[|net| - 1], j, i, n))
  }

  predicate RunsOn(c: Cluster, j: JobId, i: nat, n: NodeId) { (n, i) in c.running && c.running[(n, i)] == j }

  ghost predicate Possible(c: Cluster, s: Step) {
    match s
    case SubmitJob(job, segments) => job !in c.m.jobs && Numbered(segments)
    case Tick(order, nodes, sends) => Enumerates(order, c.m.jobs.Keys)
    case StartWorker(at) => at < |c.net| && c.net[at].Assign?
    case FinishWorker(node, id, job, outcome) => (node, id) in c.running && c.running[(node, id)] == job
    case VanishWorker(node, id) => (node, id) in c.running
    case TakeReport(at) => at < |c.net| && !c.net[at].Assign?
  }

  function Without(net: seq<Mail>, at: nat): seq<Mail>
    requires at < |net|
  {
    net[..at] + net[at + 1..]
  }

  ghost function Apply(c: Cluster, s: Step): Cluster
    requires Possible(c, s)
  {
    match s
    case SubmitJob(job, segments) => c.(m := Submit(c.m, job, segments))
    case Tick(order, nodes, sends) =>
      var (m, mail) := RunScheduler(c.m, order, nodes, sends);
      c.(m := m, net := c.net + mail)
    case StartWorker(at) =>
      c.(net := Without(c.net, at), running := c.running[(c.net[at].to, c.net[at].segment.id) := c.net[at].job])
    case FinishWorker(node, id, job, outcome) =>
      c.(net := c.net + [ReportOf(node, job, id, outcome)], running := c.running - {(node, id)})
    case VanishWorker(node, id) => c.(running := c.running - {(node, id)})
    case TakeReport(at) => c.(m := Reported(c.m, c.net[at], c.hasStore), net := Without(c.net, at))
  }

  function Reported(m: MasterState, report: Mail, hasStore: bool): MasterState
    requires !report.Assign?
  {
    match report
    case Complete(job, result, url) => OnComplete(m, job, result, url, hasStore)
    case Failed(job, id, _, error) => OnFailed(m, job, id, error, hasStore)
  }

  ghost predicate Run(c: Cluster, steps: seq<Step>, c': Cluster)
    decreases |steps|
  {
    if steps == [] then c' == c else Possible(c, steps[0]) && Run(Apply(c, steps[0]), steps[1..], c')
  }

  predicate Fresh(c: Cluster) {
    c.m.jobs == map[] && c.m.contexts == map[] && c.m.log == [] && c.net == [] && c.running == map[]
  }

  // ----- the invariant -----

  /**
   Assignments of segment `i` of job `j` to node `n` on the master's books, less those that
   are in flight, at work on the node, or reported and in flight.
   */
  function Slack(c: Cluster, j: JobId, i: nat, n: NodeId): int {
    Bit(OnBooks(c.m.jobs, j, i, n)) - CountMail(c.net, j, i, n) - Bit(RunsOn(c, j, i, n))
  }

  /** Nothing was announced about the job's end yet. */
  predicate Open(js: JobSchedule) { js.total == 0 || !js.Finished() }

  function Endings(log: seq<Event>, j: JobId): nat {
    if log == [] then 0 else Endings(log[..|log| - 1], j) + Bit(log[|log| - 1].Ends(j))
  }

  ghost predicate BooksKept(m: MasterState) {
    && (forall j :: j in m.jobs ==> Placed(m.jobs[j]))
    && (forall j :: j in m.contexts <==> j in m.jobs && Open(m.jobs[j]))
    && (forall j :: Endings(m.log, j) == Bit(j in m.jobs && !Open(m.jobs[j])))
  }

  ghost predicate NoneSpurious(c: Cluster) { forall j, i: nat, n :: Slack(c, j, i, n) >= 0 }

  ghost predicate Inv(c: Cluster) { BooksKept(c.m) && NoneSpurious(c) }

  /**
   The step loses the task for segment `i` of job `j` on node `n`: a segment with the same id
   is started over it, or it ends without any outcome.
   */
  predicate Loses(c: Cluster, s: Step, j: JobId, i: nat, n: NodeId) {
    && RunsOn(c, j, i, n)
    && ((s.StartWorker? && s.at < |c.net| && c.net[s.at].Assign? && c.net[s.at].to == n && c.net[s.at].segment.id == i)
        || (s.VanishWorker? && s.node == n && s.id == i))
  }

  // ----- mail -----

  lemma {:induction false} CountAppend(a: seq<Mail>, b: seq<Mail>, j: JobId, i: nat, n: NodeId)
    ensures CountMail(a + b, j, i, n) == CountMail(a, j, i, n) + CountMail(b, j, i, n)
    decreases |b|
  {
    if b == [] {
      assert a + b == a;
    } else {
      CountAppend(a, b[..|b| - 1], j, i, n);
      assert (a + b)[..|a + b| - 1] == a + b[..|b| - 1];
    }
  }

  lemma CountOne(x: Mail, j: JobId, i: nat, n: NodeId)
    ensures CountMail([x], j, i, n) == Bit(About(x, j, i, n))
  {
    assert [x][..0] == [];
  }

  lemma AroundOne<T>(s: seq<T>, at: nat)
    requires at < |s|
    ensures s[..at] + ([s[at]] + s[at + 1..]) == s
  {
  }

  lemma CountWithout(net: seq<Mail>, at: nat, j: JobId, i: nat, n: NodeId)
    requires at < |net|
    ensures CountMail(net, j, i, n) == CountMail(Without(net, at), j, i, n) + Bit(About(net[at], j, i, n))
  {
    var front, x, back := net[..at], [net[at]], net[at + 1..];
    AroundOne(net, at);
    CountAround(front, x, back, j, i, n);
    CountOne(net[at], j, i, n);
  }

  lemma CountAround(front: seq<Mail>, x: seq<Mail>, back: seq<Mail>, j: JobId, i: nat, n: NodeId)
    ensures CountMail(front + (x + back), j, i, n) == CountMail(front + back, j, i, n) + CountMail(x, j, i, n)
  {
    CountAppend(front, x + back, j, i, n);
    CountAppend(x, back, j, i, n);
    CountAppend(front, back, j, i, n);
  }

  /** Whatever is in flight about a segment is on the master's books. */
  lemma MailIsBooked(c: Cluster, at: nat, j: JobId, i: nat, n: NodeId)
    requires NoneSpurious(c) && at < |c.net| && About(c.net[at], j, i, n)
    ensures OnBooks(c.m.jobs, j, i, n)
  {
    CountWithout(c.net, at, j, i, n);
    assert Slack(c, j, i, n) >= 0;
  }

  // ----- a tick -----

  /** Same jobs, with the same totals and the same completed and failed segments. */
  ghost predicate SameOutcomes(jobs: map<JobId, JobSchedule>, jobs': map<JobId, JobSchedule>) {
    && jobs.Keys == jobs'.Keys
    && forall j :: j in jobs ==>
         && jobs'[j].total == jobs[j].total
         && jobs'[j].completed == jobs[j].completed
         && jobs'[j].failed == jobs[j].failed
  }

  ghost predicate AllPlaced(jobs: map<JobId, JobSchedule>) { forall j :: j in jobs ==> Placed(jobs[j]) }

  /** Each assignment of `a` is on the books, and no two of them concern the same segment. */
  ghost predicate Booked(jobs: map<JobId, JobSchedule>, a: seq<Assignment>) {
    forall j, i: nat, n :: CountOf(a, j, i, n) <= Bit(OnBooks(jobs, j, i, n))
  }

  lemma GreedyBooks(jobs: map<JobId, JobSchedule>, order: seq<JobId>, supply: seq<NodeId>)
    requires AllPlaced(jobs) && Enumerates(order, jobs.Keys)
    ensures var (jobs', a) := Greedy(jobs, order, supply);
            && SameOutcomes(jobs, jobs') && AllPlaced(jobs')
            && forall j, i: nat, n ::
                 Bit(OnBooks(jobs', j, i, n)) == Bit(OnBooks(jobs, j, i, n)) + CountOf(a, j, i, n)
  {
    var (jobs', a) := Greedy(jobs, order, supply);
    CallHandsOut(jobs, order, supply);
    forall j | j in jobs
      ensures Placed(jobs'[j])
    {
      HandedOut(jobs[j], jobs'[j], a, j);
    }
    forall j, i: nat, n
      ensures Bit(OnBooks(jobs', j, i, n)) == Bit(OnBooks(jobs, j, i, n)) + CountOf(a, j, i, n)
    {
      if j in jobs {
        HandedOutAt(jobs[j], jobs'[j], a, j, i, n);
      } else {
        UncountedJob(a, j, i, n);
      }
    }
  }

  lemma {:induction false} UncountedJob(a: seq<Assignment>, j: JobId, i: nat, n: NodeId)
    requires forall x :: x in a ==> x.jobId != j
    ensures CountOf(a, j, i, n) == 0
    decreases |a|
  {
    if a != [] {
      UncountedJob(a[..|a| - 1], j, i, n);
    }
  }

  /** An assigned segment came from a queue, so its job is still open. */
  lemma HandedOutIsOpen(js: JobSchedule, js': JobSchedule, a: seq<Assignment>, j: JobId, x: Assignment)
    requires HandsOut(js, js', a, j) && Placed(js) && x in a && x.jobId == j
    ensures Open(js)
  {
    InSegments(a, j, x);
    FourCounts(js);
  }

  lemma {:induction false} InSegments(a: seq<Assignment>, j: JobId, x: Assignment)
    requires x in a && x.jobId == j
    ensures x.segment in SegmentsOf(a, j)
    decreases |a|
  {
    if x != a[|a| - 1] {
      assert x in a[..|a| - 1];
      InSegments(a[..|a| - 1], j, x);
    }
  }

  /** Sending turns each booked assignment into mail, or takes it off the books again. */
  ghost predicate Sent(jobs: map<JobId, JobSchedule>, jobs': map<JobId, JobSchedule>, a: seq<Assignment>, mail: seq<Mail>) {
    forall j, i: nat, n ::
      Bit(OnBooks(jobs', j, i, n)) + CountOf(a, j, i, n) == Bit(OnBooks(jobs, j, i, n)) + CountMail(mail, j, i, n)
  }

  lemma SendBooks(m: MasterState, x: Assignment, reaches: bool)
    requires x.jobId in m.contexts && OnBooks(m.jobs, x.jobId, x.segment.id, x.nodeId) && AllPlaced(m.jobs)
    ensures var (m', mail) := Send(m, x, reaches);
            SameOutcomes(m.jobs, m'.jobs) && AllPlaced(m'.jobs) && Sent(m.jobs, m'.jobs, [x], mail)
  {
    var (m', mail) := Send(m, x, reaches);
    RequeuePlaced(m.jobs[x.jobId], x.segment);
    forall j, i: nat, n
      ensures Bit(OnBooks(m'.jobs, j, i, n)) + CountOf([x], j, i, n) == Bit(OnBooks(m.jobs, j, i, n)) + CountMail(mail, j, i, n)
    {
      assert [x][..0] == [];
      assert CountOf([x], j, i, n) == Bit(x.jobId == j && x.segment.id == i && x.nodeId == n);
      CountOne(Assign(x.nodeId, x.jobId, x.segment), j, i, n);
    }
  }

  /** The books and mail after some assignments were sent, as compared to before. */
  ghost predicate SentAll(m: MasterState, m': MasterState, a: seq<Assignment>, mail: seq<Mail>) {
    && m'.contexts == m.contexts && SameOutcomes(m.jobs, m'.jobs) && AllPlaced(m'.jobs)
    && Sent(m.jobs, m'.jobs, a, mail)
  }

  /** One more assignment is sent. */
  lemma SentOneMore(m: MasterState, mid: MasterState, a: seq<Assignment>, mail: seq<Mail>, reaches: bool)
    requires a != [] && Booked(m.jobs, a) && SentAll(m, mid, a[..|a| - 1], mail)
    requires a[|a| - 1].jobId in m.contexts && a[|a| - 1].jobId in mid.jobs
    ensures var (m', more) := Send(mid, a[|a| - 1], reaches); SentAll(m, m', a, mail + more)
  {
    var x, front := a[|a| - 1], a[..|a| - 1];
    LastIsBooked(m.jobs, mid.jobs, a, mail);
    SendBooks(mid, x, reaches);
    var (m', more) := Send(mid, x, reaches);
    SentThen(m.jobs, mid.jobs, m'.jobs, front, x, mail, more);
    assert a == front + [x];
  }

  lemma {:induction false} DispatchBooks(m: MasterState, a: seq<Assignment>, sends: nat -> bool)
    requires AllPlaced(m.jobs) && Booked(m.jobs, a)
    requires forall x :: x in a ==> x.jobId in m.jobs && x.jobId in m.contexts
    ensures var (m', mail) := Dispatch(m, a, sends); SentAll(m, m', a, mail)
    decreases |a|
  {
    if a != [] {
      FrontBooked(m.jobs, a);
      DispatchBooks(m, a[..|a| - 1], sends);
      var (mid, mail) := Dispatch(m, a[..|a| - 1], sends);
      SentOneMore(m, mid, a, mail, sends(|a| - 1));
    }
  }

  lemma FrontBooked(jobs: map<JobId, JobSchedule>, a: seq<Assignment>)
    requires a != [] && Booked(jobs, a)
    ensures Booked(jobs, a[..|a| - 1])
  {
    forall j, i: nat, n
      ensures CountOf(a[..|a| - 1], j, i, n) <= Bit(OnBooks(jobs, j, i, n))
    {
      assert CountOf(a, j, i, n) <= Bit(OnBooks(jobs, j, i, n));
    }
  }

  lemma LastIsBooked(jobs: map<JobId, JobSchedule>, mid: map<JobId, JobSchedule>, a: seq<Assignment>, mail: seq<Mail>)
    requires a != [] && Booked(jobs, a) && Sent(jobs, mid, a[..|a| - 1], mail)
    ensures var x := a[|a| - 1]; OnBooks(mid, x.jobId, x.segment.id, x.nodeId)
  {
    var x := a[|a| - 1];
    assert CountOf(a, x.jobId, x.segment.id, x.nodeId) <= Bit(OnBooks(jobs, x.jobId, x.segment.id, x.nodeId));
    assert Bit(OnBooks(mid, x.jobId, x.segment.id, x.nodeId)) + CountOf(a[..|a| - 1], x.jobId, x.segment.id, x.nodeId)
        == Bit(OnBooks(jobs, x.jobId, x.segment.id, x.nodeId)) + CountMail(mail, x.jobId, x.segment.id, x.nodeId);
  }

  lemma SentThen(jobs: map<JobId, JobSchedule>, mid: map<JobId, JobSchedule>, jobs': map<JobId, JobSchedule>,
                 a: seq<Assignment>, x: Assignment, mail: seq<Mail>, more: seq<Mail>)
    requires Sent(jobs, mid, a, mail) && Sent(mid, jobs', [x], more)
    ensures Sent(jobs, jobs', a + [x], mail + more)
  {
    forall j, i: nat, n
      ensures Bit(OnBooks(jobs', j, i, n)) + CountOf(a + [x], j, i, n)
           == Bit(OnBooks(jobs, j, i, n)) + CountMail(mail + more, j, i, n)
    {
      CountAppend(mail, more, j, i, n);
      assert (a + [x])[..|a|] == a && [x][..0] == [];
      assert CountOf([x], j, i, n) == Bit(x.jobId == j && x.segment.id == i && x.nodeId == n);
      assert Bit(OnBooks(mid, j, i, n)) + CountOf(a, j, i, n) == Bit(OnBooks(jobs, j, i, n)) + CountMail(mail, j, i, n);
      assert Bit(OnBooks(jobs', j, i, n)) + CountOf([x], j, i, n)
          == Bit(OnBooks(mid, j, i, n)) + CountMail(more, j, i, n);
    }
  }

  /** A tick puts on the books exactly what it puts on the wire. */
  lemma TickBooks(m: MasterState, order: seq<JobId>, nodes: seq<NodeInfo>, sends: nat -> bool)
    requires BooksKept(m) && Enumerates(order, m.jobs.Keys)
    ensures var (m', mail) := RunScheduler(m, order, nodes, sends);
            && SameOutcomes(m.jobs, m'.jobs) && AllPlaced(m'.jobs)
            && m'.contexts == m.contexts && m'.log == m.log
            && forall j, i: nat, n ::
                 Bit(OnBooks(m'.jobs, j, i, n)) == Bit(OnBooks(m.jobs, j, i, n)) + CountMail(mail, j, i, n)
  {
    var (jobs, a) := Greedy(m.jobs, order, Supply(nodes));
    GreedyBooks(m.jobs, order, Supply(nodes));
    AssignedJobsKnown(m.jobs, order, Supply(nodes));
    CallHandsOut(m.jobs, order, Supply(nodes));
    forall x | x in a
      ensures x.jobId in m.contexts
    {
      HandedOutIsOpen(m.jobs[x.jobId], jobs[x.jobId], a, x.jobId, x);
    }
    DispatchBooks(m.(jobs := jobs), a, sends);
    var (m', mail) := Dispatch(m.(jobs := jobs), a, sends);
    forall j, i: nat, n
      ensures Bit(OnBooks(m'.jobs, j, i, n)) == Bit(OnBooks(m.jobs, j, i, n)) + CountMail(mail, j, i, n)
    {
      assert Bit(OnBooks(jobs, j, i, n)) == Bit(OnBooks(m.jobs, j, i, n)) + CountOf(a, j, i, n);
      assert Bit(OnBooks(m'.jobs, j, i, n)) + CountOf(a, j, i, n) == Bit(OnBooks(jobs, j, i, n)) + CountMail(mail, j, i, n);
    }
  }

  // ----- a report -----

  lemma Announced(log: seq<Event>, e: Event, j: JobId)
    ensures Endings(log + [e], j) == Endings(log, j) + Bit(e.Ends(j))
  {
    assert (log + [e])[..|log|] == log;
  }

  /** The books agree with what was announced, about every job but `job`. */
  ghost predicate OthersKept(m: MasterState, job: JobId) {
    && (forall j :: j != job ==> (j in m.contexts <==> j in m.jobs && Open(m.jobs[j])))
    && (forall j :: j != job ==> Endings(m.log, j) == Bit(j in m.jobs && !Open(m.jobs[j])))
  }

  /** The job of a report is open, and its end is announced if that report was its last. */
  lemma VerdictKeepsBooks(m: MasterState, job: JobId, hasStore: bool)
    requires AllPlaced(m.jobs) && job in m.jobs && job in m.contexts && m.jobs[job].total > 0
    requires OthersKept(m, job) && Endings(m.log, job) == 0
    ensures BooksKept(CheckJobCompletion(m, job, hasStore))
  {
    var e, m' := Verdict(m, job, hasStore), CheckJobCompletion(m, job, hasStore);
    assert e.job == job && (e.Progress? <==> Open(m.jobs[job]));
    assert m'.jobs == m.jobs && m'.log == m.log + [e];
    forall j
      ensures Endings(m'.log, j) == Bit(j in m.jobs && !Open(m.jobs[j]))
    {
      Announced(m.log, e, j);
      assert j != job ==> Endings(m.log, j) == Bit(j in m.jobs && !Open(m.jobs[j]));
    }
    forall j
      ensures j in m'.contexts <==> j in m.jobs && Open(m.jobs[j])
    {
      assert j != job ==> (j in m.contexts <==> j in m.jobs && Open(m.jobs[j]));
    }
  }

  /** The books after a report about an assigned segment, before the job is checked. */
  lemma ReportedPlaced(m: MasterState, report: Mail, j: JobId, i: nat, n: NodeId) returns (js: JobSchedule)
    requires BooksKept(m) && !report.Assign? && About(report, j, i, n) && OnBooks(m.jobs, j, i, n)
    ensures js == (if report.Complete? then m.jobs[j].MarkComplete(report.result) else m.jobs[j].MarkFailed(i, report.error))
    ensures Placed(js) && js.assignee == m.jobs[j].assignee - {i} && js.total == m.jobs[j].total > 0
    ensures j in m.contexts && Endings(m.log, j) == 0
  {
    var before := m.jobs[j];
    FourCounts(before);
    assert Places(before, i) == Bit(i < before.total);
    if report.Complete? {
      CompletePlaced(before, report.result);
      js := before.MarkComplete(report.result);
    } else {
      FailedPlaced(before, i, report.error);
      js := before.MarkFailed(i, report.error);
    }
  }

  /** Segment `i` of job `j` leaves the assignment table, and no other entry changes. */
  ghost predicate Released(jobs: map<JobId, JobSchedule>, jobs': map<JobId, JobSchedule>, j: JobId, i: nat) {
    && j in jobs && jobs'.Keys == jobs.Keys
    && jobs'[j].assignee == jobs[j].assignee - {i}
    && forall k :: k in jobs && k != j ==> jobs'[k] == jobs[k]
  }

  lemma ReleasedOffBooks(jobs: map<JobId, JobSchedule>, jobs': map<JobId, JobSchedule>,
                         t: (JobId, nat, NodeId), j: JobId, i: nat, n: NodeId)
    requires Released(jobs, jobs', t.0, t.1) && OnBooks(jobs, t.0, t.1, t.2)
    ensures Bit(OnBooks(jobs', j, i, n)) == Bit(OnBooks(jobs, j, i, n)) - Bit(t == (j, i, n))
  {
  }

  /** A report about an assigned segment, taken as two changes: the segment's, then the job's. */
  lemma ReportedSplit(m: MasterState, report: Mail, hasStore: bool, j: JobId, i: nat, n: NodeId) returns (mid: MasterState)
    requires BooksKept(m) && !report.Assign? && About(report, j, i, n) && OnBooks(m.jobs, j, i, n)
    ensures Reported(m, report, hasStore) == CheckJobCompletion(mid, j, hasStore)
    ensures mid.contexts.Keys == m.contexts.Keys && mid.log == m.log && j in m.contexts && Endings(m.log, j) == 0
    ensures Released(m.jobs, mid.jobs, j, i) && Placed(mid.jobs[j]) && mid.jobs[j].total > 0
  {
    var js := ReportedPlaced(m, report, j, i, n);
    mid := Taken(m, report);
    TakenChanges(m, report, js);
  }

  function Taken(m: MasterState, report: Mail): MasterState
    requires !report.Assign?
  {
    match report
    case Complete(job, result, url) => TakeComplete(m, job, result, url)
    case Failed(job, id, _, error) => TakeFailed(m, job, id, error)
  }

  /** Only the reported job changes. */
  lemma TakenChanges(m: MasterState, report: Mail, js: JobSchedule)
    requires !report.Assign? && Subject(report).0 in m.jobs
    requires var (j, i, _) := Subject(report);
             js == if report.Complete? then m.jobs[j].MarkComplete(report.result) else m.jobs[j].MarkFailed(i, report.error)
    ensures Taken(m, report).jobs == m.jobs[Subject(report).0 := js]
    ensures Taken(m, report).contexts.Keys == m.contexts.Keys && Taken(m, report).log == m.log
  {
  }

  lemma ReportBooks(m: MasterState, report: Mail, hasStore: bool)
    requires var (j, i, n) := Subject(report); BooksKept(m) && !report.Assign? && OnBooks(m.jobs, j, i, n)
    ensures BooksKept(Reported(m, report, hasStore))
    ensures Released(m.jobs, Reported(m, report, hasStore).jobs, Subject(report).0, Subject(report).1)
  {
    var (j, i, n) := Subject(report);
    var mid := ReportedSplit(m, report, hasStore, j, i, n);
    VerdictKeepsBooks(mid, j, hasStore);
  }

  // ----- every step -----

  lemma StartedSlack(c: Cluster, at: nat, j: JobId, i: nat, n: NodeId)
    requires NoneSpurious(c) && Possible(c, StartWorker(at))
    ensures Slack(Apply(c, StartWorker(at)), j, i, n) == Slack(c, j, i, n) + Bit(Loses(c, StartWorker(at), j, i, n))
  {
    CountWithout(c.net, at, j, i, n);
    assert Slack(c, j, i, n) >= 0;
  }

  lemma FinishedSlack(c: Cluster, s: Step, j: JobId, i: nat, n: NodeId)
    requires s.FinishWorker? && Possible(c, s)
    ensures Slack(Apply(c, s), j, i, n) == Slack(c, j, i, n)
  {
    var report := ReportOf(s.node, s.job, s.id, s.outcome);
    CountAppend(c.net, [report], j, i, n);
    CountOne(report, j, i, n);
  }

  lemma TickSlack(c: Cluster, order: seq<JobId>, nodes: seq<NodeInfo>, sends: nat -> bool, j: JobId, i: nat, n: NodeId)
    requires Inv(c) && Possible(c, Tick(order, nodes, sends))
    ensures Slack(Apply(c, Tick(order, nodes, sends)), j, i, n) == Slack(c, j, i, n)
  {
    TickBooks(c.m, order, nodes, sends);
    CountAppend(c.net, RunScheduler(c.m, order, nodes, sends).1, j, i, n);
  }

  lemma TakenSlack(c: Cluster, at: nat, j: JobId, i: nat, n: NodeId)
    requires Inv(c) && Possible(c, TakeReport(at))
    ensures Slack(Apply(c, TakeReport(at)), j, i, n) == Slack(c, j, i, n)
  {
    CountWithout(c.net, at, j, i, n);
    TakenOffBooks(c, at, j, i, n);
  }

  /** The slack of a segment never changes, except that a lost task adds one to its own. */
  lemma SlackConserved(c: Cluster, s: Step, j: JobId, i: nat, n: NodeId)
    requires Inv(c) && Possible(c, s)
    ensures Slack(Apply(c, s), j, i, n) == Slack(c, j, i, n) + Bit(Loses(c, s, j, i, n))
  {
    match s {
      case SubmitJob(job, segments) =>
      case Tick(order, nodes, sends) => TickSlack(c, order, nodes, sends, j, i, n);
      case StartWorker(at) => StartedSlack(c, at, j, i, n);
      case FinishWorker(_, _, _, _) => FinishedSlack(c, s, j, i, n);
      case VanishWorker(node, id) =>
      case TakeReport(at) => TakenSlack(c, at, j, i, n);
    }
  }

  lemma TakenOffBooks(c: Cluster, at: nat, j: JobId, i: nat, n: NodeId)
    requires Inv(c) && at < |c.net| && !c.net[at].Assign?
    ensures BooksKept(Reported(c.m, c.net[at], c.hasStore))
    ensures Bit(OnBooks(Reported(c.m, c.net[at], c.hasStore).jobs, j, i, n))
         == Bit(OnBooks(c.m.jobs, j, i, n)) - Bit(About(c.net[at], j, i, n))
  {
    var t := Subject(c.net[at]);
    MailIsBooked(c, at, t.0, t.1, t.2);
    ReportBooks(c.m, c.net[at], c.hasStore);
    ReleasedOffBooks(c.m.jobs, Reported(c.m, c.net[at], c.hasStore).jobs, t, j, i, n);
  }

  lemma InvKept(c: Cluster, s: Step)
    requires Inv(c) && Possible(c, s)
    ensures Inv(Apply(c, s))
  {
    forall j, i: nat, n
      ensures Slack(Apply(c, s), j, i, n) >= 0
    {
      SlackConserved(c, s, j, i, n);
      assert Slack(c, j, i, n) >= 0;
    }
    match s {
      case SubmitJob(job, segments) =>
        NewJobPlaced(segments);
        SubmittedOpen(c, job, segments);
      case Tick(order, nodes, sends) => TickBooks(c.m, order, nodes, sends);
      case StartWorker(at) =>
      case FinishWorker(_, _, _, _) =>
      case VanishWorker(node, id) =>
      case TakeReport(at) => TakenOffBooks(c, at, Uuid(0, 0), 0, Uuid(0, 0));
    }
  }

  lemma SubmittedOpen(c: Cluster, job: JobId, segments: seq<SegmentDescriptor>)
    requires BooksKept(c.m) && Possible(c, SubmitJob(job, segments)) && Placed(NewJob(segments))
    ensures BooksKept(Submit(c.m, job, segments))
  {
    assert Open(NewJob(segments));
    assert Endings(c.m.log, job) == 0;
  }

  // ----- main results -----

  lemma {:induction false} RunKeepsInv(c: Cluster, steps: seq<Step>, c': Cluster)
    requires Inv(c) && Run(c, steps, c')
    ensures Inv(c')
    decreases |steps|
  {
    if steps != [] {
      InvKept(c, steps[0]);
      RunKeepsInv(Apply(c, steps[0]), steps[1..], c');
    }
  }

  lemma FreshInv(c: Cluster)
    requires Fresh(c)
    ensures Inv(c) && Settled(c)
  {
  }

  /** Every assigned segment is in flight, at work on its node or reported, exactly once. */
  ghost predicate Settled(c: Cluster) { forall j, i: nat, n :: Slack(c, j, i, n) == 0 }

  /** A segment is started on a node that already works on one with the same id, or a task vanishes. */
  predicate Losing(c: Cluster, s: Step)
  {
    || (s.StartWorker? && s.at < |c.net| && c.net[s.at].Assign? && (c.net[s.at].to, c.net[s.at].segment.id) in c.running)
    || s.VanishWorker?
  }

  /**
   Whatever the order of messages, and even when workers' tasks are lost: every
   report concerns a segment assigned to its sender, each segment is in one place, the four
   counts add up, a job counts as finished exactly when nothing is queued or assigned, and
   its end is announced exactly once, when that happens.
   */
  lemma BooksAreExact(c: Cluster, steps: seq<Step>, c': Cluster)
    requires Fresh(c) && Run(c, steps, c')
    ensures forall k, j, i: nat, n :: 0 <= k < |c'.net| && About(c'.net[k], j, i, n) ==> OnBooks(c'.m.jobs, j, i, n)
    ensures forall j :: j in c'.m.jobs ==>
              var js := c'.m.jobs[j];
              && (forall i: nat :: Places(js, i) == if i < js.total then 1 else 0)
              && |js.pending| + |js.assignee| + |js.completed| + |js.failed| == js.total
              && (js.Finished() <==> js.pending == [] && js.assignee == map[])
              && Endings(c'.m.log, j) == if js.total > 0 && js.Finished() then 1 else 0
  {
    FreshInv(c);
    RunKeepsInv(c, steps, c');
    forall k, j, i: nat, n | 0 <= k < |c'.net| && About(c'.net[k], j, i, n)
      ensures OnBooks(c'.m.jobs, j, i, n)
    {
      MailIsBooked(c', k, j, i, n);
    }
    forall j | j in c'.m.jobs
      ensures var js := c'.m.jobs[j];
              && |js.pending| + |js.assignee| + |js.completed| + |js.failed| == js.total
              && (js.Finished() <==> js.pending == [] && js.assignee == map[])
    {
      FourCounts(c'.m.jobs[j]);
    }
  }

  /** From a settled state, a step leads to a settled state exactly when it loses no task. */
  lemma SettledUnlessLosing(c: Cluster, s: Step)
    requires Inv(c) && Settled(c) && Possible(c, s)
    ensures Settled(Apply(c, s)) <==> !Losing(c, s)
  {
    forall j, i: nat, n
      ensures Slack(Apply(c, s), j, i, n) == Bit(Loses(c, s, j, i, n))
    {
      SlackConserved(c, s, j, i, n);
    }
    if Losing(c, s) {
      var (n, i) := if s.StartWorker? then (c.net[s.at].to, c.net[s.at].segment.id) else (s.node, s.id);
      var j := c.running[(n, i)];
      assert Loses(c, s, j, i, n) && Slack(Apply(c, s), j, i, n) == 1;
    }
  }

  /** A run in which no task is lost. */
  ghost predicate SmoothRun(c: Cluster, steps: seq<Step>, c': Cluster)
    decreases |steps|
  {
    if steps == [] then c' == c
    else Possible(c, steps[0]) && !Losing(c, steps[0]) && SmoothRun(Apply(c, steps[0]), steps[1..], c')
  }

  lemma {:induction false} SmoothRunSettled(c: Cluster, steps: seq<Step>, c': Cluster)
    requires Inv(c) && Settled(c) && SmoothRun(c, steps, c')
    ensures Inv(c') && Settled(c')
    decreases |steps|
  {
    if steps != [] {
      InvKept(c, steps[0]);
      SettledUnlessLosing(c, steps[0]);
      SmoothRunSettled(Apply(c, steps[0]), steps[1..], c');
    }
  }

  /**
   Without lost tasks each segment is queued, completed, failed, or assigned with
   exactly one of: its assignment in flight, its task at work, its report in flight.
   */
  lemma ExactlyOnePlace(c: Cluster, steps: seq<Step>, c': Cluster, j: JobId, i: nat)
    requires Fresh(c) && SmoothRun(c, steps, c') && j in c'.m.jobs && i < c'.m.jobs[j].total
    ensures Places(c'.m.jobs[j], i) == 1
    ensures forall n :: CountMail(c'.net, j, i, n) + Bit(RunsOn(c', j, i, n))
                     == if i in c'.m.jobs[j].assignee && c'.m.jobs[j].assignee[i] == n then 1 else 0
  {
    FreshInv(c);
    SmoothRunSettled(c, steps, c');
    forall n
      ensures CountMail(c'.net, j, i, n) + Bit(RunsOn(c', j, i, n))
           == if i in c'.m.jobs[j].assignee && c'.m.jobs[j].assignee[i] == n then 1 else 0
    {
      assert Slack(c', j, i, n) == 0;
    }
  }

  /** A lost task is lost for good: its job is never finished and its end never announced. */
  lemma {:induction false} LostNeverEnds(c: Cluster, s: Step, steps: seq<Step>, c': Cluster, j: JobId, i: nat, n: NodeId)
    requires Inv(c) && Possible(c, s) && Loses(c, s, j, i, n) && Run(Apply(c, s), steps, c')
    ensures OnBooks(c'.m.jobs, j, i, n) && !c'.m.jobs[j].Finished() && Endings(c'.m.log, j) == 0
  {
    InvKept(c, s);
    SlackConserved(c, s, j, i, n);
    assert Slack(c, j, i, n) >= 0;
    SlackPersists(Apply(c, s), steps, c', j, i, n);
    FourCounts(c'.m.jobs[j]);
  }

  lemma {:induction false} SlackPersists(c: Cluster, steps: seq<Step>, c': Cluster, j: JobId, i: nat, n: NodeId)
    requires Inv(c) && Run(c, steps, c')
    ensures Inv(c') && Slack(c', j, i, n) >= Slack(c, j, i, n)
    decreases |steps|
  {
    if steps != [] {
      InvKept(c, steps[0]);
      SlackConserved(c, steps[0], j, i, n);
      SlackPersists(Apply(c, steps[0]), steps[1..], c', j, i, n);
    }
  }
}
