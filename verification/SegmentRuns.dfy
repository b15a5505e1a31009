/**
 Any sequence of scheduler operations, with late, repeated or unexpected reports
 (cluster/src/scheduler.rs, cluster/src/main.rs): nothing is lost and success is sound.
 */
module SegmentRuns {
  import opened Common
  import opened Collections
  import opened Scheduler
  import opened ScheduleCall
  import opened Master
  import opened Placement

  datatype Op =
    | Call(order: seq<JobId>, nodes: seq<NodeInfo>)
    | Done(job: JobId, result: SegmentResult)
    | Broke(job: JobId, id: nat, error: string)
    | Requeued(job: JobId, segment: SegmentDescriptor)
    | NodeDied(dead: NodeId, moved: map<JobId, seq<nat>>)
    | NewJobAdded(job: JobId, segments: seq<SegmentDescriptor>)

  ghost predicate Allowed(jobs: map<JobId, JobSchedule>, op: Op) {
    match op
    case Call(order, nodes) => Enumerates(order, jobs.Keys)
    case NodeDied(dead, moved) => Moves(jobs, dead, moved) && moved.Keys == jobs.Keys
    case _ => true
  }

  ghost function After(jobs: map<JobId, JobSchedule>, op: Op): map<JobId, JobSchedule>
    requires Allowed(jobs, op)
  {
    match op
    case Call(order, nodes) => Greedy(jobs, order, Supply(nodes)).0
    case Done(job, result) => if job in jobs then jobs[job := jobs[job].MarkComplete(result)] else jobs
    case Broke(job, id, error) => if job in jobs then jobs[job := jobs[job].MarkFailed(id, error)] else jobs
    case Requeued(job, segment) => if job in jobs then jobs[job := jobs[job].Requeue(segment)] else jobs
    case NodeDied(dead, moved) => ReassignAll(jobs, moved)
    case NewJobAdded(job, segments) => jobs[job := NewJob(segments)]
  }

  ghost predicate Ops(jobs: map<JobId, JobSchedule>, ops: seq<Op>, jobs': map<JobId, JobSchedule>)
    decreases |ops|
  {
    if ops == [] then jobs' == jobs else Allowed(jobs, ops[0]) && Ops(After(jobs, ops[0]), ops[1..], jobs')
  }

  lemma OpsPrepend(jobs: map<JobId, JobSchedule>, op: Op, ops: seq<Op>, jobs': map<JobId, JobSchedule>)
    requires Allowed(jobs, op) && Ops(After(jobs, op), ops, jobs')
    ensures Ops(jobs, [op] + ops, jobs')
  {
    assert ([op] + ops)[1..] == ops;
  }

  // ----- nothing is lost -----

  function Ids(queue: seq<SegmentDescriptor>): set<nat> { set s | s in queue :: s.id }

  /** Every id the scheduler still knows for the job. */
  function Tracked(js: JobSchedule): set<nat> {
    Ids(js.pending) + js.assignee.Keys + js.completed.Keys + js.failed.Keys
  }

  /** The id that a report or a requeue names, if it is about job `j`. */
  function Named(op: Op, j: JobId): set<nat> {
    match op
    case Done(job, result) => if job == j then {result.segmentId} else {}
    case Broke(job, id, _) => if job == j then {id} else {}
    case Requeued(job, segment) => if job == j then {segment.id} else {}
    case _ => {}
  }

  function NamedBy(ops: seq<Op>, j: JobId): set<nat> {
    if ops == [] then {} else Named(ops[0], j) + NamedBy(ops[1..], j)
  }

  lemma IdsAppend(a: seq<SegmentDescriptor>, b: seq<SegmentDescriptor>)
    ensures Ids(a + b) == Ids(a) + Ids(b)
  {
    assert forall s :: s in a + b <==> s in a || s in b;
  }

  lemma {:induction false} RecordKeys(table: map<nat, NodeId>, a: seq<Assignment>, j: JobId)
    ensures Record(table, a, j).Keys == table.Keys + Ids(SegmentsOf(a, j))
    decreases |a|
  {
    if a != [] {
      var last, front := a[|a| - 1], a[..|a| - 1];
      RecordKeys(table, front, j);
      var tail := if last.jobId == j then [last.segment] else [];
      IdsAppend(SegmentsOf(front, j), tail);
      assert Ids([last.segment]) == {last.segment.id};
      assert Ids([]) == {};
    } else {
      assert Ids([]) == {};
    }
  }

  lemma CallTracks(js: JobSchedule, js': JobSchedule, a: seq<Assignment>, j: JobId)
    requires HandsOut(js, js', a, j)
    ensures Tracked(js') == Tracked(js)
  {
    RecordKeys(js.assignee, a, j);
    IdsAppend(SegmentsOf(a, j), js'.pending);
  }

  lemma ReassignTracks(js: JobSchedule, dead: NodeId, moved: seq<nat>)
    requires Enumerates(moved, js.IdsOn(dead))
    ensures Tracked(js.Reassign(moved)) == Tracked(js)
  {
    IdsAppend(js.pending, Placeholders(moved));
    PlaceholderIds(moved);
    assert ToSet(moved) == js.IdsOn(dead) <= js.assignee.Keys;
    assert js.Reassign(moved).assignee.Keys == js.assignee.Keys - ToSet(moved);
  }

  lemma PlaceholderIds(ids: seq<nat>)
    ensures Ids(Placeholders(ids)) == ToSet(ids)
  {
    forall i | i in ids
      ensures i in Ids(Placeholders(ids))
    {
      var k :| 0 <= k < |ids| && ids[k] == i;
      assert Placeholders(ids)[k].id == i;
    }
  }

  lemma RequeueTracks(js: JobSchedule, segment: SegmentDescriptor)
    ensures Tracked(js.Requeue(segment)) == Tracked(js) + {segment.id}
  {
    IdsAppend(js.pending, [segment]);
    assert Ids([segment]) == {segment.id};
  }

  lemma OutcomeTracks(js: JobSchedule, result: SegmentResult, id: nat, error: string)
    ensures Tracked(js.MarkComplete(result)) == Tracked(js) + {result.segmentId}
    ensures Tracked(js.MarkFailed(id, error)) == Tracked(js) + {id}
  {
  }

  lemma OpTracks(jobs: map<JobId, JobSchedule>, op: Op, j: JobId)
    requires j in jobs && Allowed(jobs, op) && !(op.NewJobAdded? && op.job == j)
    ensures j in After(jobs, op) && Tracked(After(jobs, op)[j]) == Tracked(jobs[j]) + Named(op, j)
    ensures After(jobs, op)[j].total == jobs[j].total
  {
    var js := jobs[j];
    match op {
      case Call(order, nodes) =>
        CallHandsOut(jobs, order, Supply(nodes));
        CallTracks(js, After(jobs, op)[j], Greedy(jobs, order, Supply(nodes)).1, j);
      case NodeDied(dead, moved) => ReassignTracks(js, dead, moved[j]);
      case Requeued(job, segment) => RequeueTracks(js, segment);
      case Done(job, result) => OutcomeTracks(js, result, 0, "");
      case Broke(job, id, error) => OutcomeTracks(js, SegmentResult(0, 0, Uuid(0, 0), 0, 0), id, error);
      case NewJobAdded(job, segments) =>
    }
  }

  /**
   After any operations, a job's ids are its original ones and those that reports or requeues
   named: none is ever lost and none appears from nowhere.
   */
  lemma {:induction false} NothingLost(jobs: map<JobId, JobSchedule>, ops: seq<Op>, jobs': map<JobId, JobSchedule>, j: JobId)
    requires Ops(jobs, ops, jobs') && j in jobs && forall op :: op in ops ==> !(op.NewJobAdded? && op.job == j)
    ensures j in jobs' && jobs'[j].total == jobs[j].total
    ensures Tracked(jobs'[j]) == Tracked(jobs[j]) + NamedBy(ops, j)
    decreases |ops|
  {
    if ops != [] {
      OpTracks(jobs, ops[0], j);
      NothingLost(After(jobs, ops[0]), ops[1..], jobs', j);
    }
  }

  lemma NewJobTracks(segments: seq<SegmentDescriptor>)
    ensures Tracked(NewJob(segments)) == Ids(segments)
  {
    SortCorrect(segments, HarderFirst());
    assert forall s :: s in NewJob(segments).pending <==> s in multiset(segments);
  }

  /** The form in which it is promised: what was submitted is still known, whatever happened since. */
  lemma SubmittedNeverLost(jobs: map<JobId, JobSchedule>, j: JobId, segments: seq<SegmentDescriptor>, ops: seq<Op>,
                           jobs': map<JobId, JobSchedule>)
    requires Ops(jobs, [NewJobAdded(j, segments)] + ops, jobs')
    requires forall op :: op in ops ==> !(op.NewJobAdded? && op.job == j)
    ensures j in jobs' && Ids(segments) <= Tracked(jobs'[j])
  {
    assert ([NewJobAdded(j, segments)] + ops)[1..] == ops;
    NothingLost(jobs[j := NewJob(segments)], ops, jobs', j);
    NewJobTracks(segments);
  }

  // ----- success -----

  /** A job that counts as finished without failures has completed exactly its own segments. */
  lemma SuccessIsSound(jobs: map<JobId, JobSchedule>, j: JobId, segments: seq<SegmentDescriptor>, ops: seq<Op>,
                       jobs': map<JobId, JobSchedule>)
    requires Ops(jobs, [NewJobAdded(j, segments)] + ops, jobs')
    requires forall op :: op in ops ==> !(op.NewJobAdded? && op.job == j)
    requires Ids(segments) <= Range(|segments|) && NamedBy(ops, j) <= Range(|segments|)
    ensures j in jobs'
    ensures jobs'[j].Finished() && jobs'[j].failed == map[] ==> jobs'[j].completed.Keys == Range(|segments|)
  {
    assert ([NewJobAdded(j, segments)] + ops)[1..] == ops;
    NothingLost(jobs[j := NewJob(segments)], ops, jobs', j);
    NewJobTracks(segments);
    if jobs'[j].Finished() && jobs'[j].failed == map[] {
      FinishedCompletely(jobs'[j]);
    }
  }

  // ----- when the counting test is right -----

  ghost predicate Apart(js: JobSchedule) { js.completed.Keys !! js.failed.Keys }

  /** A report that contradicts an earlier one: late, after the segment was handed out again. */
  predicate Contradicts(jobs: map<JobId, JobSchedule>, op: Op, j: JobId)
    requires j in jobs
  {
    match op
    case Done(job, result) => job == j && result.segmentId in jobs[j].failed
    case Broke(job, id, _) => job == j && id in jobs[j].completed
    case _ => false
  }

  /** The ids with an outcome, and those with two. */
  function Settled(js: JobSchedule): set<nat> { js.completed.Keys + js.failed.Keys }

  function Doubled(js: JobSchedule): set<nat> { js.completed.Keys * js.failed.Keys }

  /** Counting an id twice carries the count over the total although some id has no outcome. */
  predicate Overcounts(js: JobSchedule) {
    |Settled(js)| < js.total <= |Settled(js)| + |Doubled(js)|
  }

  /** The counting test sees the end of a job if and only if it does not overcount. */
  lemma CountingTestExact(js: JobSchedule)
    requires Settled(js) <= Range(js.total)
    ensures (js.Finished() <==> Settled(js) == Range(js.total)) <==> !Overcounts(js)
    ensures Apart(js) ==> !Overcounts(js)
  {
    SubsetSize(Settled(js), Range(js.total));
    assert |js.completed.Keys| == |js.completed| && |js.failed.Keys| == |js.failed|;
    assert |js.completed.Keys| + |js.failed.Keys| == |Settled(js)| + |Doubled(js)|;
  }

  /** Completed and failed ids stay apart exactly until a contradicting report. */
  lemma ApartUnlessContradicted(jobs: map<JobId, JobSchedule>, op: Op, j: JobId)
    requires j in jobs && Allowed(jobs, op) && !(op.NewJobAdded? && op.job == j) && Apart(jobs[j])
    ensures j in After(jobs, op) && (Apart(After(jobs, op)[j]) <==> !Contradicts(jobs, op, j))
  {
    match op {
      case Call(order, nodes) => CallHandsOut(jobs, order, Supply(nodes));
      case NodeDied(dead, moved) =>
      case Requeued(job, segment) =>
      case Done(job, result) =>
        if Contradicts(jobs, op, j) {
          assert result.segmentId in After(jobs, op)[j].completed && result.segmentId in After(jobs, op)[j].failed;
        }
      case Broke(job, id, error) =>
        if Contradicts(jobs, op, j) {
          assert id in After(jobs, op)[j].completed && id in After(jobs, op)[j].failed;
        }
      case NewJobAdded(job, segments) =>
    }
  }

  /** No report about job `j` contradicts an earlier one. */
  ghost predicate Consistent(jobs: map<JobId, JobSchedule>, ops: seq<Op>, j: JobId)
    decreases |ops|
  {
    ops != [] ==>
      && Allowed(jobs, ops[0])
      && (j in jobs ==> !Contradicts(jobs, ops[0], j))
      && Consistent(After(jobs, ops[0]), ops[1..], j)
  }

  lemma {:induction false} ApartAlong(jobs: map<JobId, JobSchedule>, ops: seq<Op>, jobs': map<JobId, JobSchedule>, j: JobId)
    requires Ops(jobs, ops, jobs') && j in jobs && Apart(jobs[j]) && Consistent(jobs, ops, j)
    requires forall op :: op in ops ==> !(op.NewJobAdded? && op.job == j)
    ensures j in jobs' && Apart(jobs'[j])
    decreases |ops|
  {
    if ops != [] {
      assert ops[0] in ops;
      ApartUnlessContradicted(jobs, ops[0], j);
      ApartAlong(After(jobs, ops[0]), ops[1..], jobs', j);
    }
  }

  /**
   Over any operations that name the job's own ids, it counts as finished exactly when each of
   its ids has an outcome, if and only if the count is not carried over the total by ids with
   two outcomes; and without contradicting reports there are none.
   */
  lemma FinishedMeansSettled(jobs: map<JobId, JobSchedule>, j: JobId, segments: seq<SegmentDescriptor>, ops: seq<Op>,
                             jobs': map<JobId, JobSchedule>)
    requires Ops(jobs, [NewJobAdded(j, segments)] + ops, jobs')
    requires forall op :: op in ops ==> !(op.NewJobAdded? && op.job == j)
    requires Ids(segments) <= Range(|segments|) && NamedBy(ops, j) <= Range(|segments|)
    ensures j in jobs'
    ensures (jobs'[j].Finished() <==> Settled(jobs'[j]) == Range(|segments|)) <==> !Overcounts(jobs'[j])
    ensures Consistent(jobs[j := NewJob(segments)], ops, j) ==>
              (jobs'[j].Finished() <==> Settled(jobs'[j]) == Range(|segments|))
  {
    var started := jobs[j := NewJob(segments)];
    assert ([NewJobAdded(j, segments)] + ops)[1..] == ops;
    NothingLost(started, ops, jobs', j);
    NewJobTracks(segments);
    CountingTestExact(jobs'[j]);
    if Consistent(started, ops, j) {
      ApartAlong(started, ops, jobs', j);
    }
  }
}
