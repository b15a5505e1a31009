/**
 When the master starts to assemble a job's output (cluster/src/main.rs), under any order of
 reports, reassignments and resubmissions.
 */
module Assembly {
  import opened Common
  import opened Collections
  import opened Scheduler
  import opened ScheduleCall
  import opened Master
  import opened Placement

  datatype Step =
    | Submitted(job: JobId, segments: seq<SegmentDescriptor>)
    | Ticked(order: seq<JobId>, nodes: seq<NodeInfo>, sends: nat -> bool)
    | Completed(job: JobId, result: SegmentResult, url: string)
    | Broken(job: JobId, id: nat, error: string)
    | NodeDied(dead: NodeId, moved: map<JobId, seq<nat>>)

  /** Reports may be late, repeated or about unassigned segments, but name ids of their job. */
  ghost predicate Possible(m: MasterState, s: Step) {
    match s
    case Submitted(job, segments) => true
    case Ticked(order, nodes, sends) => Enumerates(order, m.jobs.Keys)
    case Completed(job, result, url) => job in m.jobs ==> result.segmentId < m.jobs[job].total
    case Broken(job, id, error) => job in m.jobs ==> id < m.jobs[job].total
    case NodeDied(dead, moved) => Moves(m.jobs, dead, moved) && moved.Keys == m.jobs.Keys
  }

  ghost function Apply(m: MasterState, s: Step, hasStore: bool): MasterState
    requires Possible(m, s)
  {
    match s
    case Submitted(job, segments) => Submit(m, job, segments)
    case Ticked(order, nodes, sends) => RunScheduler(m, order, nodes, sends).0
    case Completed(job, result, url) => OnComplete(m, job, result, url, hasStore)
    case Broken(job, id, error) => OnFailed(m, job, id, error, hasStore)
    case NodeDied(dead, moved) => m.(jobs := ReassignAll(m.jobs, moved))
  }

  ghost predicate Run(m: MasterState, steps: seq<Step>, hasStore: bool, m': MasterState)
    decreases |steps|
  {
    if steps == [] then m' == m
    else Possible(m, steps[0]) && Run(Apply(m, steps[0], hasStore), steps[1..], hasStore, m')
  }

  // ----- the invariant -----

  /** An assembly is of the outputs 0 .. total-1, none missing and none extra. */
  ghost predicate WholeOutput(e: Event) { e.Assembling? ==> e.uris.Keys == Range(e.total) }

  ghost predicate Inv(m: MasterState) {
    && (forall j :: j in m.jobs ==> Bounded(m.jobs[j]))
    && m.contexts.Keys <= m.jobs.Keys
    && (forall j :: j in m.contexts ==> m.contexts[j].outputUris.Keys <= m.jobs[j].completed.Keys)
    && (forall e :: e in m.log ==> WholeOutput(e))
  }

  /** Totals and completed segments, which is all that the invariant looks at. */
  ghost predicate SameCompleted(jobs: map<JobId, JobSchedule>, jobs': map<JobId, JobSchedule>) {
    && jobs'.Keys == jobs.Keys
    && forall j :: j in jobs ==> jobs'[j].total == jobs[j].total && jobs'[j].completed == jobs[j].completed
  }

  lemma {:induction false} DispatchCompleted(m: MasterState, a: seq<Assignment>, sends: nat -> bool)
    requires forall x :: x in a ==> x.jobId in m.jobs
    ensures SameCompleted(m.jobs, Dispatch(m, a, sends).0.jobs)
    decreases |a|
  {
    if a != [] {
      DispatchCompleted(m, a[..|a| - 1], sends);
    }
  }

  lemma TickCompleted(m: MasterState, order: seq<JobId>, nodes: seq<NodeInfo>, sends: nat -> bool)
    requires Enumerates(order, m.jobs.Keys)
    ensures SameCompleted(m.jobs, RunScheduler(m, order, nodes, sends).0.jobs)
  {
    var (jobs, a) := Greedy(m.jobs, order, Supply(nodes));
    CallHandsOut(m.jobs, order, Supply(nodes));
    DispatchCompleted(m.(jobs := jobs), a, sends);
  }

  /** A success announced for `job` means that all its segments are complete. */
  lemma VerdictIsSound(m: MasterState, job: JobId, hasStore: bool)
    requires job in m.jobs && Bounded(m.jobs[job])
    requires job in m.contexts ==> m.contexts[job].outputUris.Keys <= m.jobs[job].completed.Keys
    ensures var e := Verdict(m, job, hasStore);
            && (e.JobComplete? || e.Assembling? ==> m.jobs[job].completed.Keys == Range(m.jobs[job].total))
            && (e.Assembling? ==> e.total == m.jobs[job].total && WholeOutput(e))
  {
    var js, e := m.jobs[job], Verdict(m, job, hasStore);
    if e.JobComplete? || e.Assembling? {
      assert |js.failed| == 0;
      FinishedCompletely(js);
    }
    if e.Assembling? {
      assert |e.uris.Keys| == |e.uris|;
      SubsetSize(e.uris.Keys, Range(js.total));
    }
  }

  lemma CheckKeepsInv(m: MasterState, job: JobId, hasStore: bool)
    requires Inv(m)
    ensures Inv(CheckJobCompletion(m, job, hasStore))
  {
    if job in m.jobs {
      VerdictIsSound(m, job, hasStore);
    }
  }

  lemma CompleteKeepsInv(m: MasterState, job: JobId, result: SegmentResult, url: string)
    requires Inv(m) && (job in m.jobs ==> result.segmentId < m.jobs[job].total)
    ensures Inv(TakeComplete(m, job, result, url))
  {
    var m' := TakeComplete(m, job, result, url);
    if job in m.jobs {
      assert Bounded(m'.jobs[job]);
    }
    forall j | j in m'.contexts
      ensures m'.contexts[j].outputUris.Keys <= m'.jobs[j].completed.Keys
    {
      assert m.contexts[j].outputUris.Keys <= m.jobs[j].completed.Keys;
    }
  }

  /** A report's own effect, before its job is checked. */
  function Taken(m: MasterState, s: Step): MasterState
    requires s.Completed? || s.Broken?
  {
    if s.Completed? then TakeComplete(m, s.job, s.result, s.url) else TakeFailed(m, s.job, s.id, s.error)
  }

  lemma TakenKeepsInv(m: MasterState, s: Step)
    requires Inv(m) && Possible(m, s) && (s.Completed? || s.Broken?)
    ensures Inv(Taken(m, s))
  {
    if s.Completed? {
      CompleteKeepsInv(m, s.job, s.result, s.url);
    }
  }

  lemma InvKept(m: MasterState, s: Step, hasStore: bool)
    requires Inv(m) && Possible(m, s)
    ensures Inv(Apply(m, s, hasStore))
  {
    if s.Ticked? {
      TickCompleted(m, s.order, s.nodes, s.sends);
    } else if s.Completed? || s.Broken? {
      TakenKeepsInv(m, s);
      CheckKeepsInv(Taken(m, s), s.job, hasStore);
    }
  }

  // ----- where the outputs come from -----

  /** The job was submitted with `n` segments. */
  ghost predicate Submits(past: seq<Step>, j: JobId, n: nat) {
    exists s :: s in past && s.Submitted? && s.job == j && |s.segments| == n
  }

  /** Segment `i` of the job was reported complete with this output. */
  ghost predicate Reports(past: seq<Step>, j: JobId, i: nat, url: string) {
    exists s :: s in past && s.Completed? && s.job == j && s.result.segmentId == i && s.url == url
  }

  ghost predicate AllReported(past: seq<Step>, j: JobId, uris: map<nat, string>) {
    forall i :: i in uris ==> Reports(past, j, i, uris[i])
  }

  /** Totals and outputs, on the books and announced, are those submitted and reported. */
  ghost predicate Known(past: seq<Step>, m: MasterState) {
    && (forall j :: j in m.jobs ==> Submits(past, j, m.jobs[j].total))
    && (forall j :: j in m.contexts ==> AllReported(past, j, m.contexts[j].outputUris))
    && (forall e :: e in m.log && e.Assembling? ==> Submits(past, e.job, e.total) && AllReported(past, e.job, e.uris))
  }

  lemma LongerPast(past: seq<Step>, s: Step, j: JobId)
    ensures forall n: nat :: Submits(past, j, n) ==> Submits(past + [s], j, n)
    ensures forall uris: map<nat, string> :: AllReported(past, j, uris) ==> AllReported(past + [s], j, uris)
  {
    forall n: nat | Submits(past, j, n)
      ensures Submits(past + [s], j, n)
    {
      var x :| x in past && x.Submitted? && x.job == j && |x.segments| == n;
      assert x in past + [s];
    }
    forall i: nat, url: string | Reports(past, j, i, url)
      ensures Reports(past + [s], j, i, url)
    {
      var x :| x in past && x.Completed? && x.job == j && x.result.segmentId == i && x.url == url;
      assert x in past + [s];
    }
    forall uris: map<nat, string> | AllReported(past, j, uris)
      ensures AllReported(past + [s], j, uris)
    {
    }
  }

  lemma StillKnown(past: seq<Step>, s: Step, m: MasterState)
    requires Known(past, m)
    ensures Known(past + [s], m)
  {
    forall j | j in m.jobs
      ensures Submits(past + [s], j, m.jobs[j].total)
    {
      LongerPast(past, s, j);
    }
    forall j | j in m.contexts
      ensures AllReported(past + [s], j, m.contexts[j].outputUris)
    {
      LongerPast(past, s, j);
    }
    forall e | e in m.log && e.Assembling?
      ensures Submits(past + [s], e.job, e.total) && AllReported(past + [s], e.job, e.uris)
    {
      LongerPast(past, s, e.job);
    }
  }

  lemma CompleteKnown(past: seq<Step>, m: MasterState, s: Step)
    requires Known(past, m) && s.Completed? && s in past
    ensures Known(past, Taken(m, s))
  {
    var m' := Taken(m, s);
    forall j | j in m'.contexts
      ensures AllReported(past, j, m'.contexts[j].outputUris)
    {
      assert AllReported(past, j, m.contexts[j].outputUris);
      assert Reports(past, s.job, s.result.segmentId, s.url);
    }
    forall j | j in m'.jobs
      ensures Submits(past, j, m'.jobs[j].total)
    {
      assert m'.jobs[j].total == m.jobs[j].total;
    }
  }

  lemma CheckKnown(past: seq<Step>, m: MasterState, job: JobId, hasStore: bool)
    requires Known(past, m)
    ensures Known(past, CheckJobCompletion(m, job, hasStore))
  {
  }

  lemma KnownKept(past: seq<Step>, m: MasterState, s: Step, hasStore: bool)
    requires Known(past, m) && Possible(m, s)
    ensures Known(past + [s], Apply(m, s, hasStore))
  {
    StillKnown(past, s, m);
    assert s in past + [s];
    if s.Ticked? {
      TickCompleted(m, s.order, s.nodes, s.sends);
    } else if s.Completed? || s.Broken? {
      if s.Completed? {
        CompleteKnown(past + [s], m, s);
      }
      CheckKnown(past + [s], Taken(m, s), s.job, hasStore);
    } else if s.Submitted? {
      assert Submits(past + [s], s.job, |s.segments|);
    }
  }

  // ----- the list that is concatenated -----

  /** A walk of the table names each key once, with its entry. */
  lemma WalkOfTable(uris: map<nat, string>, walk: seq<(nat, string)>)
    requires Enumerates(walk, uris.Items)
    ensures |walk| == |uris|
    ensures forall i :: 0 <= i < |walk| ==> walk[i].0 in uris && uris[walk[i].0] == walk[i].1
    ensures forall i, j :: 0 <= i < j < |walk| ==> walk[i].0 != walk[j].0
  {
    DistinctMultiset(walk, uris.Items);
    assert |uris.Items| == |uris|;
    forall i | 0 <= i < |walk|
      ensures walk[i].0 in uris && uris[walk[i].0] == walk[i].1
    {
      assert walk[i] in uris.Items;
    }
  }

  /** However the URI table is walked, its entries are concatenated as 0, 1, .. n-1. */
  lemma AssemblyInOrder(uris: map<nat, string>, n: nat, walk: seq<(nat, string)>)
    requires uris.Keys == Range(n) && Enumerates(walk, uris.Items)
    ensures AssemblyList(walk) == seq(n, i requires 0 <= i < n => (i, uris[i]))
  {
    WalkOfTable(uris, walk);
    assert |uris| == |uris.Keys| == n;
    SortByKey(walk, (p: (nat, string)) => p.0, ById());
    SortPermutes(walk, ById());
    var list := AssemblyList(walk);
    forall i | 0 <= i < n
      ensures list[i] == (i, uris[i])
    {
      assert list[i] in multiset(walk);
      assert list[i] in walk;
    }
  }

  // ----- main result -----

  lemma {:induction false} RunKeepsInv(m: MasterState, past: seq<Step>, steps: seq<Step>, hasStore: bool, m': MasterState)
    requires Inv(m) && Known(past, m) && Run(m, steps, hasStore, m')
    ensures Inv(m') && Known(past + steps, m')
    decreases |steps|
  {
    if steps == [] {
      assert past + steps == past;
    } else {
      InvKept(m, steps[0], hasStore);
      KnownKept(past, m, steps[0], hasStore);
      RunKeepsInv(Apply(m, steps[0], hasStore), past + [steps[0]], steps[1..], hasStore, m');
      assert past + [steps[0]] + steps[1..] == past + steps;
    }
  }

  ghost predicate Empty(m: MasterState) { m.jobs == map[] && m.contexts == map[] && m.log == [] }

  lemma AssembledIsKnown(m: MasterState, steps: seq<Step>, hasStore: bool, m': MasterState, e: Event)
    requires Empty(m) && Run(m, steps, hasStore, m') && e in m'.log && e.Assembling?
    ensures Submits(steps, e.job, e.total) && AllReported(steps, e.job, e.uris) && e.uris.Keys == Range(e.total)
  {
    RunKeepsInv(m, [], steps, hasStore, m');
    assert [] + steps == steps && WholeOutput(e);
  }

  /**
   Whenever assembly of a job was started, in any run, the list that is concatenated is
   exactly the outputs 0, 1, .. total-1 of a submission of that job, each once, in order and
   as it was reported for its segment.
   */
  lemma AssemblyIsWhole(m: MasterState, steps: seq<Step>, hasStore: bool, m': MasterState, e: Event, walk: seq<(nat, string)>)
    requires Empty(m) && Run(m, steps, hasStore, m')
    requires e in m'.log && e.Assembling? && Enumerates(walk, e.uris.Items)
    ensures Submits(steps, e.job, e.total) && e.uris.Keys == Range(e.total)
    ensures AssemblyList(walk) == seq(e.total, i requires 0 <= i < e.total => (i, e.uris[i]))
    ensures AllReported(steps, e.job, e.uris)
  {
    AssembledIsKnown(m, steps, hasStore, m', e);
    AssemblyInOrder(e.uris, e.total, walk);
  }

  /** Checking a job announces one event, a success only for all segments and all outputs. */
  lemma CheckAnnounces(m: MasterState, job: JobId, hasStore: bool)
    requires Inv(m) && job in m.jobs
    ensures CheckJobCompletion(m, job, hasStore).jobs == m.jobs
    ensures CheckJobCompletion(m, job, hasStore).log == m.log + [Verdict(m, job, hasStore)]
    ensures Justified(m.jobs[job], Verdict(m, job, hasStore))
  {
    VerdictIsSound(m, job, hasStore);
  }

  /** If the event is a success, the job's segments are complete; if an assembly, of all outputs. */
  ghost predicate Justified(js: JobSchedule, e: Event) {
    && (e.JobComplete? || e.Assembling? ==> js.completed.Keys == Range(js.total) && e.total == js.total)
    && (e.Assembling? ==> e.uris.Keys == Range(js.total))
  }

  /** In any run, a report announces one event, and a success only when the job has succeeded. */
  lemma SuccessOnlyWhenComplete(m: MasterState, steps: seq<Step>, hasStore: bool, m': MasterState, s: Step, job: JobId)
    requires Empty(m) && Run(m, steps, hasStore, m')
    requires Possible(m', s) && (s.Completed? || s.Broken?) && s.job == job && job in m'.jobs
    ensures var m'' := Apply(m', s, hasStore);
            && |m''.log| == |m'.log| + 1 && m''.log[..|m'.log|] == m'.log && job in m''.jobs
            && Justified(m''.jobs[job], m''.log[|m'.log|])
  {
    assert Inv(m') by {
      RunKeepsInv(m, [], steps, hasStore, m');
    }
    TakenKeepsInv(m', s);
    var mid := Taken(m', s);
    assert mid.log == m'.log && job in mid.jobs;
    CheckAnnounces(mid, job, hasStore);
  }

  // ----- which event a report announces -----

  /** The report moves its segment to the completed or failed ones of its job, and nothing else. */
  ghost predicate Books(js: JobSchedule, js': JobSchedule, s: Step) {
    && js'.total == js.total && js'.pending == js.pending
    && (s.Completed? ==>
          && js'.assignee == js.assignee - {s.result.segmentId} && js'.failed == js.failed
          && js'.completed == js.completed[s.result.segmentId := s.result])
    && (s.Broken? ==>
          && js'.assignee == js.assignee - {s.id} && js'.completed == js.completed
          && js'.failed == js.failed[s.id := s.error])
  }

  /** The report carries an output of segment `i` in the object store. */
  predicate Carries(s: Step, i: nat) {
    s.Completed? && s.result.segmentId == i && |s.url| >= 5 && s.url[..5] == "s3://"
  }

  /** With report `s` the open job has an output of segment `i` in the object store. */
  predicate Stored(m: MasterState, s: Step, job: JobId, i: nat) {
    job in m.contexts && (i in m.contexts[job].outputUris || Carries(s, i))
  }

  function Output(m: MasterState, s: Step, job: JobId, i: nat): string
    requires Stored(m, s, job, i)
  {
    if Carries(s, i) then s.url else m.contexts[job].outputUris[i]
  }

  /** The outputs of the open job, with report `s`. */
  ghost predicate Lists(m: MasterState, s: Step, job: JobId, uris: map<nat, string>) {
    forall i :: i in uris ==> Stored(m, s, job, i) && uris[i] == Output(m, s, job, i)
  }

  /** All segments of the open job have an output in the object store. */
  ghost predicate AllStored(m: MasterState, s: Step, job: JobId, total: nat) {
    job in m.contexts && forall i :: 0 <= i < total ==> Stored(m, s, job, i)
  }

  /** The event says how many segments have which outcome, and what becomes of a finished job. */
  ghost predicate Announced(m: MasterState, s: Step, job: JobId, hasStore: bool, js: JobSchedule, e: Event) {
    if |js.completed| + |js.failed| < js.total then
      e == Progress(job, |js.completed|, js.total, |js.failed|)
    else if js.failed != map[] then
      e == JobFailed(job, |js.failed|, js.total)
    else if hasStore && AllStored(m, s, job, js.total) then
      e.Assembling? && e.job == job && e.total == js.total && e.uris.Keys == Range(js.total) && Lists(m, s, job, e.uris)
    else
      e == JobComplete(job, js.total)
  }

  lemma StoredAreListed(m: MasterState, s: Step, job: JobId)
    requires Inv(m) && Possible(m, s) && (s.Completed? || s.Broken?) && s.job == job && job in m.jobs
    ensures job in Taken(m, s).contexts <==> job in m.contexts
    ensures job in m.contexts ==> forall i :: Stored(m, s, job, i) ==> i in Taken(m, s).contexts[job].outputUris
    ensures job in m.contexts ==> Lists(m, s, job, Taken(m, s).contexts[job].outputUris)
  {
  }

  /** In a finished job without failures the number of outputs tells whether all are there. */
  lemma CountTellsAll(js: JobSchedule, uris: map<nat, string>)
    requires Bounded(js) && js.Finished() && js.failed == map[] && uris.Keys <= js.completed.Keys
    ensures |uris| == js.total <==> uris.Keys == Range(js.total)
  {
    FinishedCompletely(js);
    assert |uris.Keys| == |uris|;
    if |uris| == js.total {
      SubsetSize(uris.Keys, Range(js.total));
    }
  }

  lemma FewFailures(failed: map<nat, string>)
    ensures |failed| == 0 <==> failed == map[]
  {
    if |failed| == 0 {
      assert failed.Keys == {};
    }
  }

  lemma CheckedAsAnnounced(m: MasterState, s: Step, job: JobId, hasStore: bool)
    requires Inv(m) && Possible(m, s) && (s.Completed? || s.Broken?) && s.job == job && job in m.jobs
    ensures Inv(Taken(m, s)) && job in Taken(m, s).jobs
    ensures Announced(m, s, job, hasStore, Taken(m, s).jobs[job], Verdict(Taken(m, s), job, hasStore))
  {
    TakenKeepsInv(m, s);
    StoredAreListed(m, s, job);
    var mid := Taken(m, s);
    var js := mid.jobs[job];
    FewFailures(js.failed);
    if js.Finished() && js.failed == map[] && job in mid.contexts {
      var uris := mid.contexts[job].outputUris;
      CountTellsAll(js, uris);
      assert uris.Keys == Range(js.total) <==> AllStored(m, s, job, js.total) by {
        assert forall i :: i in uris ==> i in js.completed && i < js.total;
      }
    }
  }

  /**
   In any run a report books its segment's outcome and announces one event: the progress
   while outcomes are missing; a failure exactly if a finished job has a failed segment; else
   the assembly exactly if all outputs are in the object store, and otherwise the completion.
   A finished job is closed.
   */
  lemma ReportAnnounces(m: MasterState, steps: seq<Step>, hasStore: bool, m': MasterState, s: Step, job: JobId)
    requires Empty(m) && Run(m, steps, hasStore, m')
    requires Possible(m', s) && (s.Completed? || s.Broken?) && s.job == job && job in m'.jobs
    ensures var m'' := Apply(m', s, hasStore);
            && |m''.log| == |m'.log| + 1 && m''.log[..|m'.log|] == m'.log && job in m''.jobs
            && Books(m'.jobs[job], m''.jobs[job], s)
            && Announced(m', s, job, hasStore, m''.jobs[job], m''.log[|m'.log|])
            && (job in m''.contexts <==>
                  job in m'.contexts && |m''.jobs[job].completed| + |m''.jobs[job].failed| < m''.jobs[job].total)
    ensures forall j :: j in m'.jobs && j != job ==> j in Apply(m', s, hasStore).jobs && Apply(m', s, hasStore).jobs[j] == m'.jobs[j]
  {
    assert Inv(m') by {
      RunKeepsInv(m, [], steps, hasStore, m');
    }
    CheckedAsAnnounced(m', s, job, hasStore);
    TakenBooks(m', s, job);
    CheckCloses(Taken(m', s), job, hasStore);
  }

  lemma TakenBooks(m: MasterState, s: Step, job: JobId)
    requires (s.Completed? || s.Broken?) && s.job == job && job in m.jobs
    ensures var mid := Taken(m, s);
            && mid.log == m.log && job in mid.jobs && Books(m.jobs[job], mid.jobs[job], s)
            && (job in mid.contexts <==> job in m.contexts)
    ensures forall j :: j in m.jobs && j != job ==> j in Taken(m, s).jobs && Taken(m, s).jobs[j] == m.jobs[j]
  {
  }

  lemma CheckCloses(m: MasterState, job: JobId, hasStore: bool)
    requires job in m.jobs
    ensures var (js, m') := (m.jobs[job], CheckJobCompletion(m, job, hasStore));
            && m'.jobs == m.jobs && m'.log == m.log + [Verdict(m, job, hasStore)]
            && (job in m'.contexts <==> job in m.contexts && |js.completed| + |js.failed| < js.total)
  {
  }

  // ----- stored outputs are assembled -----

  /** Every completed segment of an open job has an output in the object store. */
  ghost predicate OutputsStored(m: MasterState) {
    forall j :: j in m.contexts && j in m.jobs ==> m.jobs[j].completed.Keys <= m.contexts[j].outputUris.Keys
  }

  lemma OutputsStoredKept(m: MasterState, s: Step, hasStore: bool)
    requires Inv(m) && OutputsStored(m) && Possible(m, s) && (s.Completed? ==> Carries(s, s.result.segmentId))
    ensures OutputsStored(Apply(m, s, hasStore))
  {
    if s.Ticked? {
      TickCompleted(m, s.order, s.nodes, s.sends);
    } else if s.Completed? || s.Broken? {
      TakenStores(m, s);
      CheckStores(Taken(m, s), s.job, hasStore);
    }
  }

  lemma TakenStores(m: MasterState, s: Step)
    requires OutputsStored(m) && (s.Broken? || (s.Completed? && Carries(s, s.result.segmentId)))
    ensures OutputsStored(Taken(m, s))
  {
    var m' := Taken(m, s);
    forall j | j in m'.contexts && j in m'.jobs
      ensures m'.jobs[j].completed.Keys <= m'.contexts[j].outputUris.Keys
    {
      assert m.jobs[j].completed.Keys <= m.contexts[j].outputUris.Keys;
    }
  }

  lemma CheckStores(m: MasterState, job: JobId, hasStore: bool)
    requires OutputsStored(m)
    ensures OutputsStored(CheckJobCompletion(m, job, hasStore))
  {
  }

  lemma {:induction false} RunStores(m: MasterState, steps: seq<Step>, hasStore: bool, m': MasterState)
    requires Inv(m) && OutputsStored(m) && Run(m, steps, hasStore, m')
    requires forall s :: s in steps && s.Completed? ==> Carries(s, s.result.segmentId)
    ensures Inv(m') && OutputsStored(m')
    decreases |steps|
  {
    if steps != [] {
      InvKept(m, steps[0], hasStore);
      OutputsStoredKept(m, steps[0], hasStore);
      RunStores(Apply(m, steps[0], hasStore), steps[1..], hasStore, m');
    }
  }

  /** When all completions put their outputs in the store, an open job that succeeds is assembled. */
  lemma StoredJobIsAssembled(m: MasterState, steps: seq<Step>, m': MasterState, s: Step, job: JobId)
    requires Empty(m) && Run(m, steps, true, m')
    requires forall x :: x in steps + [s] && x.Completed? ==> Carries(x, x.result.segmentId)
    requires Possible(m', s) && (s.Completed? || s.Broken?) && s.job == job && job in m'.jobs && job in m'.contexts
    ensures Apply(m', s, true).log != [] && job in Apply(m', s, true).jobs
    ensures var js, log := Apply(m', s, true).jobs[job], Apply(m', s, true).log;
            |js.completed| >= js.total && js.failed == map[] ==> log[|log| - 1].Assembling?
  {
    assert forall x :: x in steps ==> x in steps + [s];
    assert s in steps + [s];
    RunStores(m, steps, true, m');
    ReportAnnounces(m, steps, true, m', s, job);
    var js := Apply(m', s, true).jobs[job];
    if |js.completed| >= js.total && js.failed == map[] {
      FinishedIsStored(m', s, job, js);
    }
  }

  lemma FinishedIsStored(m: MasterState, s: Step, job: JobId, js: JobSchedule)
    requires Inv(m) && OutputsStored(m) && Possible(m, s) && (s.Completed? || s.Broken?) && s.job == job
    requires s.Completed? ==> Carries(s, s.result.segmentId)
    requires job in m.jobs && job in m.contexts && Books(m.jobs[job], js, s)
    requires |js.completed| >= js.total && js.failed == map[]
    ensures AllStored(m, s, job, js.total)
  {
    assert js.completed.Keys <= Range(js.total) by {
      assert m.jobs[job].completed.Keys <= Range(js.total);
    }
    FinishedCompletely(js);
    forall i | 0 <= i < js.total
      ensures Stored(m, s, job, i)
    {
      assert i in Range(js.total) && i in js.completed;
    }
  }
}
