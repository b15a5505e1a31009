/**
 Where each segment of a job is on the master's books, counted segment by segment: queued,
 assigned, completed or failed (cluster/src/scheduler.rs).
 */
module Placement {
  import opened Common
  import opened Collections
  import opened Scheduler
  import opened ScheduleCall

  function Bit(b: bool): nat { if b then 1 else 0 }

  /** How often id `i` is queued. */
  function Occurs(queue: seq<SegmentDescriptor>, i: nat): nat {
    if queue == [] then 0 else Bit(queue[0].id == i) + Occurs(queue[1..], i)
  }

  /** In how many places segment `i` is. */
  function Places(js: JobSchedule, i: nat): nat {
    Occurs(js.pending, i) + Bit(i in js.assignee) + Bit(i in js.completed) + Bit(i in js.failed)
  }

  /** Every segment of the job is in exactly one place, and nothing else is anywhere. */
  ghost predicate Placed(js: JobSchedule) { forall i: nat :: Places(js, i) == Bit(i < js.total) }

  /** Segment `i` of job `j` is assigned to node `n`. */
  predicate OnBooks(jobs: map<JobId, JobSchedule>, j: JobId, i: nat, n: NodeId) {
    j in jobs && i in jobs[j].assignee && jobs[j].assignee[i] == n
  }

  /** How many of the assignments hand segment `i` of job `j` to node `n`. */
  function CountOf(a: seq<Assignment>, j: JobId, i: nat, n: NodeId): nat {
    if a == [] then 0
    else
      var last := a[|a| - 1];
      CountOf(a[..|a| - 1], j, i, n) + Bit(last.jobId == j && last.segment.id == i && last.nodeId == n)
  }

  lemma {:induction false} OccursAppend(q: seq<SegmentDescriptor>, r: seq<SegmentDescriptor>, i: nat)
    ensures Occurs(q + r, i) == Occurs(q, i) + Occurs(r, i)
  {
    if q == [] {
      assert q + r == r;
    } else {
      OccursAppend(q[1..], r, i);
      assert (q + r)[1..] == q[1..] + r;
    }
  }

  lemma PartsAddUp(a: set<nat>, c: set<nat>, f: set<nat>, all: set<nat>)
    requires forall i: nat :: Bit(i in a) + Bit(i in c) + Bit(i in f) == Bit(i in all)
    ensures |a| + |c| + |f| == |all|
  {
    forall i: nat
      ensures i in all <==> i in a || i in c || i in f
      ensures !(i in a && i in c) && !(i in a && i in f) && !(i in c && i in f)
    {
      assert Bit(i in a) + Bit(i in c) + Bit(i in f) == Bit(i in all);
    }
    assert a !! c && (a + c) !! f && a + c + f == all;
  }

  /** Queued, assigned, completed and failed segments add up. */
  lemma {:induction false} CountsAddUp(queue: seq<SegmentDescriptor>, a: set<nat>, c: set<nat>, f: set<nat>, all: set<nat>)
    requires forall i: nat :: Occurs(queue, i) + Bit(i in a) + Bit(i in c) + Bit(i in f) == Bit(i in all)
    ensures |queue| + |a| + |c| + |f| == |all|
    decreases |queue|
  {
    if queue == [] {
      PartsAddUp(a, c, f, all);
    } else {
      var i := queue[0].id;
      assert i in all by {
        assert Occurs(queue, i) >= 1;
      }
      forall k: nat
        ensures Occurs(queue[1..], k) + Bit(k in a) + Bit(k in c) + Bit(k in f) == Bit(k in all - {i})
      {
        assert Occurs(queue, k) == Bit(i == k) + Occurs(queue[1..], k);
      }
      CountsAddUp(queue[1..], a, c, f, all - {i});
    }
  }

  lemma FourCounts(js: JobSchedule)
    requires Placed(js)
    ensures |js.pending| + |js.assignee| + |js.completed| + |js.failed| == js.total
    ensures js.Finished() <==> js.pending == [] && js.assignee == map[]
  {
    forall i: nat
      ensures Occurs(js.pending, i) + Bit(i in js.assignee.Keys) + Bit(i in js.completed.Keys) + Bit(i in js.failed.Keys)
           == Bit(i in Range(js.total))
    {
      assert Places(js, i) == Bit(i < js.total);
    }
    CountsAddUp(js.pending, js.assignee.Keys, js.completed.Keys, js.failed.Keys, Range(js.total));
    assert |js.assignee.Keys| == |js.assignee| && |js.completed.Keys| == |js.completed| && |js.failed.Keys| == |js.failed|;
  }

  // ----- one step at a time -----

  /** Ids 0 .. n-1, once each and in any order. */
  ghost predicate Numbered(segments: seq<SegmentDescriptor>) {
    forall i: nat :: Occurs(segments, i) == Bit(i < |segments|)
  }

  lemma {:induction false} OccursInsert(x: SegmentDescriptor, s: seq<SegmentDescriptor>, i: nat)
    ensures Occurs(Insert(x, s, HarderFirst()), i) == Bit(x.id == i) + Occurs(s, i)
  {
    if s != [] && !HarderFirst()(x, s[0]) {
      OccursInsert(x, s[1..], i);
      assert Insert(x, s, HarderFirst()) == [s[0]] + Insert(x, s[1..], HarderFirst());
      assert Insert(x, s, HarderFirst())[1..] == Insert(x, s[1..], HarderFirst());
    } else {
      assert ([x] + s)[1..] == s;
    }
  }

  lemma {:induction false} OccursSort(s: seq<SegmentDescriptor>, i: nat)
    ensures Occurs(Sort(s, HarderFirst()), i) == Occurs(s, i)
  {
    if s != [] {
      OccursSort(s[1..], i);
      OccursInsert(s[0], Sort(s[1..], HarderFirst()), i);
    }
  }

  lemma NewJobPlaced(segments: seq<SegmentDescriptor>)
    requires Numbered(segments)
    ensures Placed(NewJob(segments))
  {
    forall i: nat
      ensures Places(NewJob(segments), i) == Bit(i < |segments|)
    {
      OccursSort(segments, i);
    }
  }

  lemma CompletePlaced(js: JobSchedule, result: SegmentResult)
    requires Placed(js) && result.segmentId in js.assignee
    ensures Placed(js.MarkComplete(result))
  {
    forall i: nat
      ensures Places(js.MarkComplete(result), i) == Bit(i < js.total)
    {
      assert Places(js, i) == Bit(i < js.total);
    }
  }

  lemma FailedPlaced(js: JobSchedule, id: nat, error: string)
    requires Placed(js) && id in js.assignee
    ensures Placed(js.MarkFailed(id, error))
  {
    forall i: nat
      ensures Places(js.MarkFailed(id, error), i) == Bit(i < js.total)
    {
      assert Places(js, i) == Bit(i < js.total);
    }
  }

  lemma RequeuePlaced(js: JobSchedule, segment: SegmentDescriptor)
    requires Placed(js) && segment.id in js.assignee
    ensures Placed(js.Requeue(segment)) && js.Requeue(segment).failed == js.failed
  {
    assert Places(js, segment.id) == Bit(segment.id < js.total);
    assert js.failed - {segment.id} == js.failed;
    forall i: nat
      ensures Places(js.Requeue(segment), i) == Bit(i < js.total)
    {
      assert Places(js, i) == Bit(i < js.total);
      OccursAppend(js.pending, [segment], i);
      assert Occurs([segment], i) == Bit(segment.id == i);
    }
  }

  // ----- a scheduling call -----

  /** Entering assignments of segments that have no assignment yet adds one record each. */
  lemma {:induction false} RecordCounts(table: map<nat, NodeId>, a: seq<Assignment>, j: JobId, i: nat, n: NodeId)
    requires Occurs(SegmentsOf(a, j), i) + Bit(i in table) <= 1
    ensures var after := Record(table, a, j);
            && Bit(i in after) == Bit(i in table) + Occurs(SegmentsOf(a, j), i)
            && Bit(i in after && after[i] == n) == Bit(i in table && table[i] == n) + CountOf(a, j, i, n)
    decreases |a|
  {
    if a != [] {
      var last, front := a[|a| - 1], a[..|a| - 1];
      var tail := if last.jobId == j then [last.segment] else [];
      OccursAppend(SegmentsOf(front, j), tail, i);
      assert Occurs(tail, i) == Bit(last.jobId == j && last.segment.id == i);
      RecordCounts(table, front, j, i, n);
    }
  }

  lemma HandedOutAt(js: JobSchedule, js': JobSchedule, a: seq<Assignment>, j: JobId, i: nat, n: NodeId)
    requires HandsOut(js, js', a, j) && Placed(js)
    ensures Places(js', i) == Places(js, i)
    ensures Bit(i in js'.assignee && js'.assignee[i] == n)
         == Bit(i in js.assignee && js.assignee[i] == n) + CountOf(a, j, i, n)
  {
    assert Places(js, i) == Bit(i < js.total);
    OccursAppend(SegmentsOf(a, j), js'.pending, i);
    RecordCounts(js.assignee, a, j, i, n);
  }

  lemma HandedOut(js: JobSchedule, js': JobSchedule, a: seq<Assignment>, j: JobId)
    requires HandsOut(js, js', a, j) && Placed(js)
    ensures Placed(js')
  {
    forall i: nat
      ensures Places(js', i) == Bit(i < js'.total)
    {
      HandedOutAt(js, js', a, j, i, Uuid(0, 0));
      assert Places(js, i) == Bit(i < js.total);
    }
  }

  // ----- success -----

  ghost predicate Bounded(js: JobSchedule) { js.completed.Keys <= Range(js.total) }

  /** Without failures and with everything counted, the job completed exactly its own segments. */
  lemma FinishedCompletely(js: JobSchedule)
    requires Bounded(js) && js.Finished() && js.failed == map[]
    ensures js.completed.Keys == Range(js.total)
  {
    SubsetSize(js.completed.Keys, Range(js.total));
    assert |js.completed.Keys| == |js.completed|;
  }
}
