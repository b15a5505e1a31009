/** Two jobs' segments with the same id do meet on one worker, and one of them is then lost. */
module Displacement {
  import opened Common
  import opened Collections
  import opened Scheduler
  import opened ScheduleCall
  import opened Master
  import opened Placement
  import opened Cluster

  function First(): JobId { Uuid(0, 1) }
  function Second(): JobId { Uuid(0, 2) }
  function Worker(): NodeId { Uuid(0, 9) }
  function OneSegment(): seq<SegmentDescriptor> { [Placeholder(0)] }
  function TwoSlots(): seq<NodeInfo> { [NodeInfo(Worker(), 1, 2, 0, Active)] }
  function Queued(): map<JobId, JobSchedule> { map[First() := NewJob(OneSegment()), Second() := NewJob(OneSegment())] }

  function Empty(): Cluster { Cluster(MasterState(map[], map[], []), [], map[], false) }

  lemma TwoSlotSupply()
    ensures Supply(TwoSlots()) == [Worker(), Worker()]
  {
    SingleNodeSupply(TwoSlots()[0]);
    assert Repeat(Worker(), 2) == [Worker(), Worker()];
  }

  lemma OneEach()
    ensures Greedy(Queued(), [First(), Second()], [Worker(), Worker()]).1
         == [Assignment(First(), Placeholder(0), Worker()), Assignment(Second(), Placeholder(0), Worker())]
  {
    var js, n := NewJob(OneSegment()), Worker();
    assert OneSegment()[1..] == [];
    assert js.pending == OneSegment();
    OneTurn(First(), js, [n, n]);
    OneTurn(Second(), js, [n]);
    assert [First()][..0] == [] && [First(), Second()][..1] == [First()];
    assert [n, n][0..] == [n, n] && [n, n][1..] == [n];
    var first := [Assignment(First(), Placeholder(0), n)];
    assert Greedy(Queued(), [], [n, n]) == (Queued(), []);
    assert Greedy(Queued(), [First()], [n, n]).1 == [] + AssignJob(First(), js, [n, n]).1 == first;
  }

  lemma OneTurn(j: JobId, js: JobSchedule, supply: seq<NodeId>)
    requires js.pending == OneSegment() && supply != []
    ensures AssignJob(j, js, supply).1 == [Assignment(j, Placeholder(0), supply[0])]
  {
    assert js.Assign(supply[0]).pending == [];
    assert AssignJob(j, js.Assign(supply[0]), supply[1..]).1 == [];
  }

  lemma BothSent(m: MasterState, a: seq<Assignment>, sends: nat -> bool)
    requires a == [Assignment(First(), Placeholder(0), Worker()), Assignment(Second(), Placeholder(0), Worker())]
    requires {First(), Second()} <= m.jobs.Keys && {First(), Second()} <= m.contexts.Keys && sends(0) && sends(1)
    ensures Dispatch(m, a, sends).1
         == [Assign(Worker(), First(), Placeholder(0)), Assign(Worker(), Second(), Placeholder(0))]
  {
    assert a[..0] == [] && a[..2] == a;
    DispatchOneMore(m, a, 0, sends);
    DispatchOneMore(m, a, 1, sends);
    var first, second := Assign(Worker(), First(), Placeholder(0)), Assign(Worker(), Second(), Placeholder(0));
    assert Dispatch(m, a[..1], sends).1 == [] + [first] == [first];
    assert Dispatch(m, a, sends).1 == [first] + [second];
  }

  lemma Submitted() returns (c: Cluster)
    ensures c.m.jobs == Queued() && c.net == [] && c.running == map[]
    ensures c.m.contexts.Keys == {First(), Second()}
    ensures forall steps, c' :: SmoothRun(c, steps, c') ==>
              SmoothRun(Empty(), [SubmitJob(First(), OneSegment()), SubmitJob(Second(), OneSegment())] + steps, c')
  {
    assert OneSegment()[1..] == [];
    assert Numbered(OneSegment());
    var s1, s2 := SubmitJob(First(), OneSegment()), SubmitJob(Second(), OneSegment());
    var c1 := Apply(Empty(), s1);
    c := Apply(c1, s2);
    forall steps, c' | SmoothRun(c, steps, c')
      ensures SmoothRun(Empty(), [s1, s2] + steps, c')
    {
      assert ([s1, s2] + steps)[1..] == [s2] + steps && ([s2] + steps)[1..] == steps;
      assert SmoothRun(c1, [s2] + steps, c');
    }
  }

  function BothMails(): seq<Mail> { [Assign(Worker(), First(), Placeholder(0)), Assign(Worker(), Second(), Placeholder(0))] }

  lemma TickSends(m: MasterState, sends: nat -> bool)
    requires m.jobs == Queued() && m.contexts.Keys == {First(), Second()} && sends(0) && sends(1)
    ensures RunScheduler(m, [First(), Second()], TwoSlots(), sends).1 == BothMails()
  {
    TwoSlotSupply();
    OneEach();
    var (jobs, a) := Greedy(Queued(), [First(), Second()], [Worker(), Worker()]);
    BothSent(m.(jobs := jobs), a, sends);
  }

  lemma BothInFlight(c0: Cluster, sends: nat -> bool) returns (tick: Step)
    requires c0.m.jobs == Queued() && c0.net == [] && c0.running == map[]
    requires c0.m.contexts.Keys == {First(), Second()} && sends(0) && sends(1)
    ensures Possible(c0, tick) && tick.Tick? && Apply(c0, tick).running == map[]
    ensures Apply(c0, tick).net == BothMails()
  {
    tick := Tick([First(), Second()], TwoSlots(), sends);
    assert Enumerates([First(), Second()], c0.m.jobs.Keys);
    TickSends(c0.m, sends);
    assert [] + BothMails() == BothMails();
  }

  /**
   From an empty cluster, a run without lost tasks that ends with a possible step which
   loses one: two one-segment jobs on one worker with two slots.
   */
  lemma TwoJobsCollide() returns (steps: seq<Step>, c: Cluster, s: Step)
    ensures Fresh(Empty()) && SmoothRun(Empty(), steps, c)
    ensures Possible(c, s) && Loses(c, s, First(), 0, Worker())
  {
    var c0 := Submitted();
    var tick := BothInFlight(c0, k => true);
    var c1 := Apply(c0, tick);
    s := StartWorker(0);
    c := Apply(c1, s);
    assert c.net == [Assign(Worker(), Second(), Placeholder(0))];
    assert [tick, s][1..] == [s] && [s][1..] == [];
    assert SmoothRun(c, [], c) && SmoothRun(c1, [s], c) && SmoothRun(c0, [tick, s], c);
    steps := [SubmitJob(First(), OneSegment()), SubmitJob(Second(), OneSegment())] + [tick, s];
  }
}
