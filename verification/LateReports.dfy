/** A late report after a reassignment makes the counting test see an end that is not there. */
module LateReports {
  import opened Common
  import opened Collections
  import opened Scheduler
  import opened ScheduleCall
  import opened SegmentRuns

  function Job(): JobId { Uuid(0, 1) }
  function A(): NodeInfo { NodeInfo(Uuid(0, 7), 4, 2, 0, Active) }
  function B(): NodeInfo { NodeInfo(Uuid(0, 8), 4, 1, 0, Active) }
  function Segments(): seq<SegmentDescriptor> { [Placeholder(0), Placeholder(1)] }
  function FromA(): SegmentResult { SegmentResult(0, 0, Uuid(0, 7), 300, 1000) }

  lemma FirstQueue()
    ensures NewJob(Segments()) == JobSchedule(2, Segments(), map[], map[], map[])
  {
    assert Segments()[1..] == [Placeholder(1)] && [Placeholder(1)][1..] == [];
    assert Sort([Placeholder(1)], HarderFirst()) == [Placeholder(1)];
    assert Insert(Placeholder(0), [Placeholder(1)], HarderFirst()) == [Placeholder(0)] + [Placeholder(1)];
  }

  /** Both segments on A. */
  lemma BothToA(js: JobSchedule)
    requires js.pending == Segments() && js.assignee == map[]
    ensures AssignJob(Job(), js, Supply([A()])).0 == js.(pending := [], assignee := map[0 := A().nodeId, 1 := A().nodeId])
  {
    var a := A().nodeId;
    SingleNodeSupply(A());
    assert Repeat(a, 2) == [a] + Repeat(a, 1) && [a, a][1..] == [a] && [a][1..] == [];
    assert Segments()[1..] == [Placeholder(1)] && [Placeholder(1)][1..] == [];
    var one := js.Assign(a);
    var two := one.Assign(a);
    assert AssignJob(Job(), two, []).0 == two;
    assert AssignJob(Job(), one, [a]).0 == two;
    assert two.assignee == map[0 := a, 1 := a];
  }

  /** Segment 0 on B, which has one slot. */
  lemma FirstToB(js: JobSchedule)
    requires js.pending == Segments() && js.assignee == map[]
    ensures AssignJob(Job(), js, Supply([B()])).0 == js.(pending := [Placeholder(1)], assignee := map[0 := B().nodeId])
  {
    var b := B().nodeId;
    SingleNodeSupply(B());
    assert Repeat(b, 1) == [b] && [b][1..] == [] && Segments()[1..] == [Placeholder(1)];
    assert AssignJob(Job(), js.Assign(b), []).0 == js.Assign(b);
    assert js.Assign(b).assignee == map[0 := b];
  }

  function Queue(pending: seq<SegmentDescriptor>, assignee: map<nat, NodeId>): map<JobId, JobSchedule> {
    map[Job() := JobSchedule(2, pending, assignee, map[], map[])]
  }

  function Submitted(): map<JobId, JobSchedule> { Queue(Segments(), map[]) }
  function OnA(): map<JobId, JobSchedule> { Queue([], map[0 := A().nodeId, 1 := A().nodeId]) }
  function OnB(): map<JobId, JobSchedule> { Queue([Placeholder(1)], map[0 := B().nodeId]) }

  function Adds(): Op { NewJobAdded(Job(), Segments()) }
  function CallsA(): Op { Call([Job()], [A()]) }
  function Dies(): Op { NodeDied(A().nodeId, map[Job() := [0, 1]]) }
  function CallsB(): Op { Call([Job()], [B()]) }
  function LateSuccess(): Op { Done(Job(), FromA()) }
  function Failure(): Op { Broke(Job(), 0, "encoder failed") }

  lemma Added()
    ensures After(map[], Adds()) == Submitted()
  {
    FirstQueue();
  }

  lemma CalledA()
    ensures Allowed(Submitted(), CallsA()) && After(Submitted(), CallsA()) == OnA()
  {
    BothToA(Submitted()[Job()]);
    SingleJobCall(Submitted(), Job(), Supply([A()]));
  }

  lemma NodeADied()
    ensures Allowed(OnA(), Dies()) && After(OnA(), Dies()) == Submitted()
  {
    var js := OnA()[Job()];
    assert Enumerates([0, 1], js.IdsOn(A().nodeId));
    assert Placeholders([0, 1]) == Segments() && [] + Segments() == Segments() && ToSet([0, 1]) == {0, 1};
    assert js.Reassign([0, 1]) == Submitted()[Job()];
  }

  lemma CalledB()
    ensures Allowed(Submitted(), CallsB()) && After(Submitted(), CallsB()) == OnB()
  {
    FirstToB(Submitted()[Job()]);
    SingleJobCall(Submitted(), Job(), Supply([B()]));
  }

  /** Segment 0 with both outcomes, segment 1 still queued. */
  function Ending(): JobSchedule {
    JobSchedule(2, [Placeholder(1)], map[], map[0 := FromA()], map[0 := "encoder failed"])
  }

  lemma BothReported()
    ensures After(After(OnB(), LateSuccess()), Failure()) == map[Job() := Ending()]
  {
    var late := OnB()[Job()].MarkComplete(FromA());
    assert late.assignee == map[] && late.MarkFailed(0, "encoder failed") == Ending();
    assert After(OnB(), LateSuccess()) == map[Job() := late];
  }

  lemma EndingOvercounts()
    ensures Ending().Finished() && Overcounts(Ending()) && Doubled(Ending()) == {0} == Settled(Ending())
  {
    assert Settled(Ending()) == {0} && Doubled(Ending()) == {0};
  }

  /**
   Segment 0 goes to A, is taken back when A is declared dead, and goes to B; then A reports
   it complete and B reports it failed. The job now counts as finished, with segment 0 both
   completed and failed and segment 1 still in the queue.
   */
  lemma FinishedTooEarly() returns (ops: seq<Op>, jobs: map<JobId, JobSchedule>)
    ensures Ops(map[], ops, jobs) && Job() in jobs && jobs[Job()].Finished() && Overcounts(jobs[Job()])
    ensures jobs[Job()].pending == [Placeholder(1)] && Settled(jobs[Job()]) == {0}
  {
    jobs := map[Job() := Ending()];
    BothReported();
    EndingOvercounts();
    OpsPrepend(After(OnB(), LateSuccess()), Failure(), [], jobs);
    OpsPrepend(OnB(), LateSuccess(), [Failure()] + [], jobs);
    ops := [LateSuccess()] + ([Failure()] + []);
    ops := GoesToB(ops, jobs);
  }

  /** Whatever happens with segment 0 on B, this is how it comes there. */
  lemma GoesToB(after: seq<Op>, jobs: map<JobId, JobSchedule>) returns (ops: seq<Op>)
    requires Ops(OnB(), after, jobs)
    ensures Ops(map[], ops, jobs)
  {
    CalledB();
    OpsPrepend(Submitted(), CallsB(), after, jobs);
    NodeADied();
    OpsPrepend(OnA(), Dies(), [CallsB()] + after, jobs);
    CalledA();
    OpsPrepend(Submitted(), CallsA(), [Dies()] + ([CallsB()] + after), jobs);
    Added();
    OpsPrepend(map[], Adds(), [CallsA()] + ([Dies()] + ([CallsB()] + after)), jobs);
    ops := [Adds()] + ([CallsA()] + ([Dies()] + ([CallsB()] + after)));
  }
}
