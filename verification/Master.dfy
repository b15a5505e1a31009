/**
 The master's side of segment processing (cluster/src/main.rs): sending assignments, taking
 reports and noticing that a job has ended.
 */
module Master {
  import opened Common
  import opened Collections
  import opened Scheduler

  /** A wire message about one segment. */
  datatype Mail =
    | Assign(to: NodeId, job: JobId, segment: SegmentDescriptor)
    | Complete(job: JobId, result: SegmentResult, outputUrl: string)
    | Failed(job: JobId, id: nat, node: NodeId, error: string)

  /** Broadcasts, and the start of assembling a job's outputs. */
  datatype Event =
    | Progress(job: JobId, completed: nat, total: nat, failed: nat)
    | JobFailed(job: JobId, failed: nat, total: nat)
    | Assembling(job: JobId, total: nat, uris: map<nat, string>)
    | JobComplete(job: JobId, total: nat)
  {
    predicate Ends(j: JobId) { !Progress? && job == j }
  }

  /** The answer to a submission: the job and its number of segments, or an error code. */
  datatype Reply = Accepted(job: JobId, total: nat) | Refused(code: nat)

  /** Output URIs reported so far, by segment id. */
  datatype JobContext = JobContext(segments: seq<SegmentDescriptor>, outputUris: map<nat, string>)

  datatype MasterState = MasterState(
    jobs: map<JobId, JobSchedule>, contexts: map<JobId, JobContext>, log: seq<Event>)

  predicate IsS3(url: string) { |url| >= 5 && url[..5] == "s3://" }

  function Submit(m: MasterState, job: JobId, segments: seq<SegmentDescriptor>): MasterState {
    m.(jobs := m.jobs[job := NewJob(segments)], contexts := m.contexts[job := JobContext(segments, map[])])
  }

  lemma {:induction false} TurnJobKnown(job: JobId, js: JobSchedule, supply: seq<NodeId>)
    ensures forall x :: x in AssignJob(job, js, supply).1 ==> x.jobId == job
    decreases |supply|
  {
    if js.pending != [] && supply != [] {
      TurnJobKnown(job, js.Assign(supply[0]), supply[1..]);
    }
  }

  lemma {:induction false} AssignedJobsKnown(jobs: map<JobId, JobSchedule>, order: seq<JobId>, supply: seq<NodeId>)
    requires forall j :: j in order ==> j in jobs
    ensures forall x :: x in Greedy(jobs, order, supply).1 ==> x.jobId in jobs
    decreases |order|
  {
    if order != [] {
      var job, front := order[|order| - 1], order[..|order| - 1];
      AssignedJobsKnown(jobs, front, supply);
      var (before, sofar) := Greedy(jobs, front, supply);
      TurnJobKnown(job, before[job], supply[|sofar|..]);
    }
  }

  /** Sends one assignment unless its job has ended; a failed send puts the segment back. */
  function Send(m: MasterState, x: Assignment, reaches: bool): (r: (MasterState, seq<Mail>))
    requires x.jobId in m.jobs
    ensures r.0.jobs.Keys == m.jobs.Keys && r.0.contexts == m.contexts && r.0.log == m.log
  {
    if x.jobId !in m.contexts then (m, [])
    else if reaches then (m, [Assign(x.nodeId, x.jobId, x.segment)])
    else (m.(jobs := m.jobs[x.jobId := m.jobs[x.jobId].Requeue(x.segment)]), [])
  }

  /** The assignments sent in turn; `sends(k)` tells whether the k-th reaches its peer. */
  function Dispatch(m: MasterState, a: seq<Assignment>, sends: nat -> bool): (r: (MasterState, seq<Mail>))
    requires forall x :: x in a ==> x.jobId in m.jobs
    ensures r.0.jobs.Keys == m.jobs.Keys && r.0.contexts == m.contexts && r.0.log == m.log
  {
    if a == [] then (m, [])
    else
      var (m', mail) := Dispatch(m, a[..|a| - 1], sends);
      var (m'', more) := Send(m', a[|a| - 1], sends(|a| - 1));
      (m'', mail + more)
  }

  lemma DispatchOneMore(m: MasterState, a: seq<Assignment>, k: nat, sends: nat -> bool)
    requires k < |a| && forall x :: x in a ==> x.jobId in m.jobs
    ensures Dispatch(m, a[..k + 1], sends).0 == Send(Dispatch(m, a[..k], sends).0, a[k], sends(k)).0
    ensures Dispatch(m, a[..k + 1], sends).1
         == Dispatch(m, a[..k], sends).1 + Send(Dispatch(m, a[..k], sends).0, a[k], sends(k)).1
  {
    assert a[..k + 1][..k] == a[..k];
  }

  /** The k-th assignment is sent: its job is open and its peer is reached. */
  predicate Goes(m: MasterState, a: seq<Assignment>, k: nat, sends: nat -> bool)
    requires k < |a|
  {
    a[k].jobId in m.contexts && sends(k)
  }

  /** The k-th assignment comes back: its job is open but its peer is not reached. */
  predicate ComesBack(m: MasterState, a: seq<Assignment>, k: nat, sends: nat -> bool)
    requires k < |a|
  {
    a[k].jobId in m.contexts && !sends(k)
  }

  /** The mail is exactly the assignments that go, as they are. */
  ghost predicate MailOf(m: MasterState, a: seq<Assignment>, sends: nat -> bool, mail: seq<Mail>) {
    && (forall x :: x in mail ==>
          exists k: nat :: k < |a| && Goes(m, a, k, sends) && x == Assign(a[k].nodeId, a[k].jobId, a[k].segment))
    && (forall k: nat :: k < |a| && Goes(m, a, k, sends) ==> Assign(a[k].nodeId, a[k].jobId, a[k].segment) in mail)
  }

  /** What comes back is queued behind what is; an ended job is left alone. */
  ghost predicate Requeued(m: MasterState, a: seq<Assignment>, sends: nat -> bool, jobs: map<JobId, JobSchedule>)
    requires jobs.Keys == m.jobs.Keys && forall x :: x in a ==> x.jobId in m.jobs
  {
    && (forall j :: j in m.jobs ==> m.jobs[j].pending <= jobs[j].pending)
    && (forall k: nat :: k < |a| && ComesBack(m, a, k, sends) ==> a[k].segment in jobs[a[k].jobId].pending)
    && (forall j :: j in m.jobs && j !in m.contexts ==> jobs[j] == m.jobs[j])
  }

  lemma MailOneMore(m: MasterState, a: seq<Assignment>, sends: nat -> bool, mail: seq<Mail>, more: seq<Mail>)
    requires a != [] && MailOf(m, a[..|a| - 1], sends, mail)
    requires var n := |a| - 1;
             more == if Goes(m, a, n, sends) then [Assign(a[n].nodeId, a[n].jobId, a[n].segment)] else []
    ensures MailOf(m, a, sends, mail + more)
  {
    var n, front := |a| - 1, a[..|a| - 1];
    forall x | x in mail + more
      ensures exists k: nat :: k < |a| && Goes(m, a, k, sends) && x == Assign(a[k].nodeId, a[k].jobId, a[k].segment)
    {
      if x in mail {
        var k: nat :| k < n && Goes(m, front, k, sends) && x == Assign(front[k].nodeId, front[k].jobId, front[k].segment);
        assert Goes(m, a, k, sends) && a[k] == front[k];
      } else {
        assert Goes(m, a, n, sends);
      }
    }
    forall k: nat | k < |a| && Goes(m, a, k, sends)
      ensures Assign(a[k].nodeId, a[k].jobId, a[k].segment) in mail + more
    {
      assert k < n ==> Goes(m, front, k, sends) && a[k] == front[k];
    }
  }

  lemma SendRequeues(m: MasterState, x: Assignment, reaches: bool)
    requires x.jobId in m.jobs
    ensures var jobs := Send(m, x, reaches).0.jobs;
            && (forall j :: j in m.jobs ==> m.jobs[j].pending <= jobs[j].pending)
            && (forall j, y :: j in m.jobs && y in m.jobs[j].pending ==> y in jobs[j].pending)
            && (x.jobId in m.contexts && !reaches ==> x.segment in jobs[x.jobId].pending)
            && (forall j :: j in m.jobs && j !in m.contexts ==> jobs[j] == m.jobs[j])
  {
  }

  lemma PrefixThen<T>(a: seq<T>, b: seq<T>, c: seq<T>)
    requires a <= b && b <= c
    ensures a <= c
  {
  }

  lemma RequeuedOneMore(m: MasterState, a: seq<Assignment>, sends: nat -> bool, mid: MasterState)
    requires a != [] && (forall x :: x in a ==> x.jobId in m.jobs)
    requires mid.jobs.Keys == m.jobs.Keys && mid.contexts == m.contexts && Requeued(m, a[..|a| - 1], sends, mid.jobs)
    ensures Requeued(m, a, sends, Send(mid, a[|a| - 1], sends(|a| - 1)).0.jobs)
  {
    var n, front := |a| - 1, a[..|a| - 1];
    assert a[n] in a;
    SendRequeues(mid, a[n], sends(n));
    var jobs := Send(mid, a[n], sends(n)).0.jobs;
    forall j | j in m.jobs
      ensures m.jobs[j].pending <= jobs[j].pending
    {
      PrefixThen(m.jobs[j].pending, mid.jobs[j].pending, jobs[j].pending);
    }
    forall k: nat | k < |a| && ComesBack(m, a, k, sends)
      ensures a[k].segment in jobs[a[k].jobId].pending
    {
      if k < n {
        assert ComesBack(m, front, k, sends) && a[k] == front[k] && a[k] in a;
      }
    }
  }

  /**
   Exactly the assignments of open jobs whose peer is reached are sent, as they are; of open
   jobs the others join the end of the queue; a job that has ended is left alone.
   */
  lemma {:induction false} DispatchTells(m: MasterState, a: seq<Assignment>, sends: nat -> bool)
    requires forall x :: x in a ==> x.jobId in m.jobs
    ensures MailOf(m, a, sends, Dispatch(m, a, sends).1)
    ensures Requeued(m, a, sends, Dispatch(m, a, sends).0.jobs)
    decreases |a|
  {
    if a != [] {
      var n, front := |a| - 1, a[..|a| - 1];
      DispatchTells(m, front, sends);
      var (mid, mail) := Dispatch(m, front, sends);
      MailOneMore(m, a, sends, mail, Send(mid, a[n], sends(n)).1);
      RequeuedOneMore(m, a, sends, mid);
    }
  }

  /** A scheduling tick over the reachable active `nodes`. */
  function RunScheduler(m: MasterState, order: seq<JobId>, nodes: seq<NodeInfo>, sends: nat -> bool)
    : (MasterState, seq<Mail>)
    requires forall j :: j in order ==> j in m.jobs
  {
    var (jobs, a) := Greedy(m.jobs, order, Supply(nodes));
    AssignedJobsKnown(m.jobs, order, Supply(nodes));
    Dispatch(m.(jobs := jobs), a, sends)
  }

  /** What the master announces, if anything, after a report about `job`. */
  function Verdict(m: MasterState, job: JobId, hasStore: bool): Event
    requires job in m.jobs
  {
    var js := m.jobs[job];
    if !js.Finished() then Progress(job, |js.completed|, js.total, |js.failed|)
    else if |js.failed| != 0 then JobFailed(job, |js.failed|, js.total)
    else if hasStore && job in m.contexts && |m.contexts[job].outputUris| == js.total
    then Assembling(job, js.total, m.contexts[job].outputUris)
    else JobComplete(job, js.total)
  }

  function CheckJobCompletion(m: MasterState, job: JobId, hasStore: bool): MasterState {
    if job !in m.jobs then m
    else
      var e := Verdict(m, job, hasStore);
      m.(log := m.log + [e], contexts := if e.Progress? then m.contexts else m.contexts - {job})
  }

  /** What a completion report itself changes, before its job is checked. */
  function TakeComplete(m: MasterState, job: JobId, result: SegmentResult, url: string): MasterState {
    m.(contexts :=
         if IsS3(url) && job in m.contexts
         then m.contexts[job := m.contexts[job].(outputUris := m.contexts[job].outputUris[result.segmentId := url])]
         else m.contexts,
       jobs := if job in m.jobs then m.jobs[job := m.jobs[job].MarkComplete(result)] else m.jobs)
  }

  function TakeFailed(m: MasterState, job: JobId, id: nat, error: string): MasterState {
    m.(jobs := if job in m.jobs then m.jobs[job := m.jobs[job].MarkFailed(id, error)] else m.jobs)
  }

  function OnComplete(m: MasterState, job: JobId, result: SegmentResult, url: string, hasStore: bool): MasterState {
    CheckJobCompletion(TakeComplete(m, job, result, url), job, hasStore)
  }

  function OnFailed(m: MasterState, job: JobId, id: nat, error: string, hasStore: bool): MasterState {
    CheckJobCompletion(TakeFailed(m, job, id, error), job, hasStore)
  }

  function ById(): ((nat, string), (nat, string)) -> bool {
    (a: (nat, string), b: (nat, string)) => a.0 <= b.0
  }

  /** Output URIs in the order in which they are concatenated. */
  function AssemblyList(uris: seq<(nat, string)>): seq<(nat, string)> { Sort(uris, ById()) }

  class Master {
    const scheduler: Scheduler
    const hasStore: bool
    var contexts: map<JobId, JobContext>
    var log: seq<Event>
    var outbox: seq<Mail>

    ghost function State(): MasterState
      reads this, scheduler
    {
      MasterState(scheduler.jobs, contexts, log)
    }

    constructor (scheduler: Scheduler, hasStore: bool)
      ensures this.scheduler == scheduler && this.hasStore == hasStore
      ensures contexts == map[] && log == [] && outbox == []
    {
      this.scheduler, this.hasStore := scheduler, hasStore;
      contexts, log, outbox := map[], [], [];
    }

    /** `prepared`: the segments that the source was cut into, unless cutting it failed. */
    method HandleJobSubmit(isMaster: bool, job: JobId, prepared: Result<seq<SegmentDescriptor>, string>)
      returns (reply: Reply)
      modifies this, scheduler
      ensures outbox == old(outbox)
      ensures !isMaster ==> reply == Refused(403) && State() == old(State())
      ensures isMaster && prepared.Err? ==> reply == Refused(500) && State() == old(State())
      ensures isMaster && prepared.Ok? ==>
                reply == Accepted(job, |prepared.value|) && State() == Submit(old(State()), job, prepared.value)
    {
      if !isMaster {
        return Refused(403);
      }
      if prepared.Err? {
        return Refused(500);
      }
      var segments := prepared.value;
      contexts := contexts[job := JobContext(segments, map[])];
      scheduler.AddJob(job, segments);
      return Accepted(job, |segments|);
    }

    method SendOne(x: Assignment, reaches: bool)
      requires x.jobId in scheduler.jobs
      modifies this, scheduler
      ensures State() == Send(old(State()), x, reaches).0
      ensures outbox == old(outbox) + Send(old(State()), x, reaches).1
    {
      if x.jobId in contexts {
        if reaches {
          outbox := outbox + [Assign(x.nodeId, x.jobId, x.segment)];
        } else {
          scheduler.RequeueSegment(x.jobId, x.segment);
        }
      }
    }

    method SendAll(a: seq<Assignment>, sends: nat -> bool)
      requires forall x :: x in a ==> x.jobId in scheduler.jobs
      modifies this, scheduler
      ensures State() == Dispatch(old(State()), a, sends).0
      ensures outbox == old(outbox) + Dispatch(old(State()), a, sends).1
    {
      ghost var m, sent := State(), outbox;
      var k := 0;
      assert a[..0] == [] && sent + [] == sent;
      while k < |a|
        invariant 0 <= k <= |a|
        invariant State() == Dispatch(m, a[..k], sends).0
        invariant outbox == sent + Dispatch(m, a[..k], sends).1
      {
        DispatchOneMore(m, a, k, sends);
        Assoc(sent, Dispatch(m, a[..k], sends).1, Send(Dispatch(m, a[..k], sends).0, a[k], sends(k)).1);
        SendOne(a[k], sends(k));
        k := k + 1;
      }
      assert a[..k] == a;
    }

    /** One tick; `sends(k)` tells whether the k-th send reaches its peer. */
    method Tick(nodes: seq<NodeInfo>, sends: nat -> bool) returns (ghost order: seq<JobId>)
      modifies this, scheduler
      ensures Enumerates(order, old(scheduler.jobs).Keys)
      ensures State() == RunScheduler(old(State()), order, nodes, sends).0
      ensures outbox == old(outbox) + RunScheduler(old(State()), order, nodes, sends).1
    {
      var a;
      a, order := scheduler.Schedule(nodes);
      AssignedJobsKnown(old(scheduler.jobs), order, Supply(nodes));
      SendAll(a, sends);
    }

    method CheckCompletion(job: JobId)
      modifies this
      ensures State() == CheckJobCompletion(old(State()), job, hasStore) && outbox == old(outbox)
    {
      if job !in scheduler.jobs {
        return;
      }
      var js := scheduler.jobs[job];
      if |js.completed| + |js.failed| < js.total {
        log := log + [Progress(job, |js.completed|, js.total, |js.failed|)];
        return;
      }
      if |js.failed| != 0 {
        log := log + [JobFailed(job, |js.failed|, js.total)];
        contexts := contexts - {job};
        return;
      }
      if hasStore && job in contexts && |contexts[job].outputUris| == js.total {
        log := log + [Assembling(job, js.total, contexts[job].outputUris)];
      } else {
        log := log + [JobComplete(job, js.total)];
      }
      contexts := contexts - {job};
    }

    method HandleSegmentComplete(job: JobId, result: SegmentResult, url: string)
      modifies this, scheduler
      ensures State() == OnComplete(old(State()), job, result, url, hasStore) && outbox == old(outbox)
    {
      if IsS3(url) && job in contexts {
        contexts := contexts[job := contexts[job].(outputUris := contexts[job].outputUris[result.segmentId := url])];
      }
      scheduler.MarkComplete(job, result);
      CheckCompletion(job);
    }

    method HandleSegmentFailed(job: JobId, id: nat, error: string)
      modifies this, scheduler
      ensures State() == OnFailed(old(State()), job, id, error, hasStore) && outbox == old(outbox)
    {
      scheduler.MarkFailed(job, id, error);
      CheckCompletion(job);
    }
  }
}
