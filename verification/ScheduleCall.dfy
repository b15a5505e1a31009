/** What one scheduling call achieves, whatever the order in which the job table is walked. */
module ScheduleCall {
  import opened Common
  import opened Collections
  import opened Scheduler

  /** The segments of job `j` among some assignments, in order. */
  function SegmentsOf(a: seq<Assignment>, j: JobId): seq<SegmentDescriptor> {
    if a == [] then []
    else SegmentsOf(a[..|a| - 1], j) + (if a[|a| - 1].jobId == j then [a[|a| - 1].segment] else [])
  }

  /** The assignment table of job `j` after some assignments were entered, in order. */
  function Record(table: map<nat, NodeId>, a: seq<Assignment>, j: JobId): map<nat, NodeId> {
    if a == [] then table
    else
      var before, last := Record(table, a[..|a| - 1], j), a[|a| - 1];
      if last.jobId == j then before[last.segment.id := last.nodeId] else before
  }

  function PendingCount(jobs: map<JobId, JobSchedule>): JobId -> nat {
    (j: JobId) => if j in jobs then |jobs[j].pending| else 0
  }

  /** Jobs lose a prefix of their queue, which is exactly what `a` hands out; nothing else changes. */
  ghost predicate HandsOut(js: JobSchedule, js': JobSchedule, a: seq<Assignment>, j: JobId) {
    && js.pending == SegmentsOf(a, j) + js'.pending
    && js'.assignee == Record(js.assignee, a, j)
    && js' == js.(pending := js'.pending, assignee := js'.assignee)
  }

  lemma {:induction false} SegmentsOfAppend(a: seq<Assignment>, b: seq<Assignment>, j: JobId)
    ensures SegmentsOf(a + b, j) == SegmentsOf(a, j) + SegmentsOf(b, j)
    decreases |b|
  {
    if b == [] {
      assert a + b == a;
    } else {
      SegmentsOfAppend(a, b[..|b| - 1], j);
      assert (a + b)[..|a + b| - 1] == a + b[..|b| - 1];
    }
  }

  lemma {:induction false} RecordAppend(table: map<nat, NodeId>, a: seq<Assignment>, b: seq<Assignment>, j: JobId)
    ensures Record(table, a + b, j) == Record(Record(table, a, j), b, j)
    decreases |b|
  {
    if b == [] {
      assert a + b == a;
    } else {
      RecordAppend(table, a, b[..|b| - 1], j);
      assert (a + b)[..|a + b| - 1] == a + b[..|b| - 1];
    }
  }

  lemma {:induction false} OthersUntouched(a: seq<Assignment>, j: JobId, table: map<nat, NodeId>)
    requires forall x :: x in a ==> x.jobId != j
    ensures SegmentsOf(a, j) == [] && Record(table, a, j) == table
    decreases |a|
  {
    if a != [] {
      OthersUntouched(a[..|a| - 1], j, table);
    }
  }

  lemma {:induction false} TurnHandsOut(job: JobId, js: JobSchedule, supply: seq<NodeId>)
    ensures var (js', a) := AssignJob(job, js, supply);
            HandsOut(js, js', a, job) && NodesOf(a) <= supply && forall x :: x in a ==> x.jobId == job
    decreases |supply|
  {
    if js.pending != [] && supply != [] {
      var first := Assignment(job, js.pending[0], supply[0]);
      TurnHandsOut(job, js.Assign(supply[0]), supply[1..]);
      var (js', more) := AssignJob(job, js.Assign(supply[0]), supply[1..]);
      SegmentsOfAppend([first], more, job);
      RecordAppend(js.assignee, [first], more, job);
      NodesOfAppend([first], more);
      assert SegmentsOf([first], job) == [js.pending[0]] && NodesOf([first]) == [supply[0]];
      assert Record(js.assignee, [first], job) == js.Assign(supply[0]).assignee;
      assert js.pending == [js.pending[0]] + js.pending[1..];
      assert supply == [supply[0]] + supply[1..];
    } else {
      assert [] + js.pending == js.pending;
    }
  }

  function Queued(jobs: map<JobId, JobSchedule>, order: seq<JobId>): nat
    requires forall j :: j in order ==> j in jobs
  {
    if order == [] then 0 else Queued(jobs, order[..|order| - 1]) + |jobs[order[|order| - 1]].pending|
  }

  lemma {:induction false} QueuedIsSum(jobs: map<JobId, JobSchedule>, order: seq<JobId>, keys: set<JobId>)
    requires Enumerates(order, keys) && keys <= jobs.Keys
    ensures Queued(jobs, order) == Sum(keys, PendingCount(jobs))
    decreases |order|
  {
    if order != [] {
      var last, front := order[|order| - 1], order[..|order| - 1];
      assert Enumerates(front, keys - {last});
      QueuedIsSum(jobs, front, keys - {last});
      SumTake(keys, PendingCount(jobs), last);
    } else {
      assert keys == {};
    }
  }

  lemma HandsOutThen(js: JobSchedule, mid: JobSchedule, js': JobSchedule, a: seq<Assignment>, b: seq<Assignment>, j: JobId)
    requires HandsOut(js, mid, a, j) && HandsOut(mid, js', b, j)
    ensures HandsOut(js, js', a + b, j)
  {
    SegmentsOfAppend(a, b, j);
    RecordAppend(js.assignee, a, b, j);
    assert SegmentsOf(a, j) + (SegmentsOf(b, j) + js'.pending) == SegmentsOf(a, j) + SegmentsOf(b, j) + js'.pending;
  }

  lemma HandsOutNothing(js: JobSchedule, a: seq<Assignment>, j: JobId)
    requires forall x :: x in a ==> x.jobId != j
    ensures HandsOut(js, js, a, j)
  {
    OthersUntouched(a, j, js.assignee);
    assert [] + js.pending == js.pending;
  }

  lemma {:induction false} CallHandsOut(jobs: map<JobId, JobSchedule>, order: seq<JobId>, supply: seq<NodeId>)
    requires Distinct(order) && forall j :: j in order ==> j in jobs
    ensures forall x :: x in Greedy(jobs, order, supply).1 ==> x.jobId in order
    ensures forall j :: j in jobs ==> HandsOut(jobs[j], Greedy(jobs, order, supply).0[j], Greedy(jobs, order, supply).1, j)
    decreases |order|
  {
    if order == [] {
      forall j | j in jobs
        ensures HandsOut(jobs[j], jobs[j], [], j)
      {
        HandsOutNothing(jobs[j], [], j);
      }
    } else {
      var job, front := order[|order| - 1], order[..|order| - 1];
      CallHandsOut(jobs, front, supply);
      var (before, sofar) := Greedy(jobs, front, supply);
      TurnHandsOut(job, before[job], supply[|sofar|..]);
      var (js, more) := AssignJob(job, before[job], supply[|sofar|..]);
      forall j | j in jobs
        ensures HandsOut(jobs[j], before[job := js][j], sofar + more, j)
      {
        if j != job {
          HandsOutNothing(before[j], more, j);
        }
        HandsOutThen(jobs[j], before[j], before[job := js][j], sofar, more, j);
      }
    }
  }

  /** A turn goes on filling the supply where the earlier ones stopped. */
  lemma TurnFills(job: JobId, js: JobSchedule, supply: seq<NodeId>, sofar: seq<Assignment>, queued: nat)
    requires NodesOf(sofar) <= supply && |sofar| == Min(queued, |supply|)
    ensures |sofar| <= |supply|
    ensures var more := AssignJob(job, js, supply[|sofar|..]).1;
            NodesOf(sofar + more) <= supply && |sofar + more| == Min(queued + |js.pending|, |supply|)
  {
    var rest := supply[|sofar|..];
    NodesOfAppend(sofar, []);
    assert supply == NodesOf(sofar) + rest;
    TurnHandsOut(job, js, rest);
    NodesOfAppend(sofar, AssignJob(job, js, rest).1);
  }

  /** Assignments fill the supply from its front, and stop only when a side is exhausted. */
  lemma {:induction false} CallFillsSupply(jobs: map<JobId, JobSchedule>, order: seq<JobId>, supply: seq<NodeId>)
    requires Distinct(order) && forall j :: j in order ==> j in jobs
    ensures NodesOf(Greedy(jobs, order, supply).1) <= supply
    ensures |Greedy(jobs, order, supply).1| == Min(Queued(jobs, order), |supply|)
    ensures forall j :: j in jobs && j !in order ==> Greedy(jobs, order, supply).0[j] == jobs[j]
    decreases |order|
  {
    if order != [] {
      var job, front := order[|order| - 1], order[..|order| - 1];
      CallFillsSupply(jobs, front, supply);
      var (before, sofar) := Greedy(jobs, front, supply);
      assert job !in front;
      TurnFills(job, before[job], supply, sofar, Queued(jobs, front));
    }
  }

  // ----- the supply -----

  /** Every node as often as it has free slots. */
  function Expand(nodes: seq<NodeInfo>): seq<NodeInfo> {
    if nodes == [] then [] else Repeat(nodes[0], nodes[0].Free()) + Expand(nodes[1..])
  }

  /** What the Active nodes of a list have left, in worker slots. */
  function FreeSlots(nodes: seq<NodeInfo>): nat {
    if nodes == [] then 0
    else
      var n := nodes[0];
      (if n.status == Active && n.activeWorkers < n.maxConcurrentWorkers then n.maxConcurrentWorkers - n.activeWorkers else 0)
      + FreeSlots(nodes[1..])
  }

  ghost predicate DistinctIds(nodes: seq<NodeInfo>) {
    forall i, j :: 0 <= i < j < |nodes| ==> nodes[i].nodeId != nodes[j].nodeId
  }

  lemma {:induction false} ExpandAvailable(nodes: seq<NodeInfo>)
    ensures |Expand(Available(nodes))| == FreeSlots(nodes)
    ensures forall n :: n in Available(nodes) ==> n in nodes && CanTake(n)
  {
    if nodes != [] {
      ExpandAvailable(nodes[1..]);
      ExpandAppend(if CanTake(nodes[0]) then [nodes[0]] else [], Available(nodes[1..]));
      assert Expand([nodes[0]]) == Repeat(nodes[0], nodes[0].Free());
    }
  }

  lemma {:induction false} ExpandAppend(a: seq<NodeInfo>, b: seq<NodeInfo>)
    ensures Expand(a + b) == Expand(a) + Expand(b)
  {
    if a == [] {
      assert a + b == b;
    } else {
      ExpandAppend(a[1..], b);
      assert (a + b)[1..] == a[1..] + b;
      Assoc(Repeat(a[0], a[0].Free()), Expand(a[1..]), Expand(b));
    }
  }

  lemma {:induction false} ExpandInsert(x: NodeInfo, s: seq<NodeInfo>)
    ensures multiset(Expand(Insert(x, s, MorePowerful())))
         == multiset(Repeat(x, x.Free())) + multiset(Expand(s))
  {
    if s != [] && !MorePowerful()(x, s[0]) {
      ExpandInsert(x, s[1..]);
      assert Insert(x, s, MorePowerful())[1..] == Insert(x, s[1..], MorePowerful());
    } else {
      assert ([x] + s)[1..] == s;
    }
  }

  lemma {:induction false} ExpandSort(s: seq<NodeInfo>)
    ensures multiset(Expand(Sort(s, MorePowerful()))) == multiset(Expand(s))
  {
    if s != [] {
      ExpandSort(s[1..]);
      ExpandInsert(s[0], Sort(s[1..], MorePowerful()));
    }
  }

  lemma {:induction false} ExpandMembers(s: seq<NodeInfo>)
    ensures forall x :: x in Expand(s) ==> x in s
  {
    if s != [] {
      ExpandMembers(s[1..]);
    }
  }

  lemma {:induction false} ExpandSorted(s: seq<NodeInfo>)
    requires Sorted(s, MorePowerful())
    ensures Sorted(Expand(s), MorePowerful())
  {
    if s != [] {
      ExpandSorted(s[1..]);
      ExpandMembers(s[1..]);
      var head, tail := Repeat(s[0], s[0].Free()), Expand(s[1..]);
      forall i, j | 0 <= i < j < |head + tail|
        ensures MorePowerful()((head + tail)[i], (head + tail)[j])
      {
        if i < |head| && |head| <= j {
          assert tail[j - |head|] in s[1..];
        }
      }
    }
  }

  /** No node appears more often than it has slots. */
  lemma {:induction false} ExpandWithinCapacity(s: seq<NodeInfo>, n: NodeInfo)
    requires DistinctIds(s)
    ensures multiset(Expand(s))[n] <= n.Free()
  {
    if s != [] {
      ExpandWithinCapacity(s[1..], n);
      ExpandMembers(s[1..]);
      RepeatCount(s[0], s[0].Free(), n);
      if n == s[0] {
        assert n !in Expand(s[1..]);
      }
    }
  }

  lemma {:induction false} RepeatCount<T>(x: T, k: nat, y: T)
    ensures multiset(Repeat(x, k))[y] == if x == y then k else 0
  {
    if k > 0 {
      RepeatCount(x, k - 1, y);
    }
  }

  lemma {:induction false} AvailableDistinct(nodes: seq<NodeInfo>)
    requires DistinctIds(nodes)
    ensures DistinctIds(Available(nodes))
  {
    if nodes != [] {
      AvailableDistinct(nodes[1..]);
      ExpandAvailable(nodes[1..]);
      forall n | n in Available(nodes[1..])
        ensures n.nodeId != nodes[0].nodeId
      {
        var k :| 0 <= k < |nodes[1..]| && nodes[1..][k] == n;
      }
    }
  }

  lemma {:induction false} InsertDistinct(x: NodeInfo, s: seq<NodeInfo>)
    requires DistinctIds(s) && forall n :: n in s ==> n.nodeId != x.nodeId
    ensures DistinctIds(Insert(x, s, MorePowerful()))
    ensures forall n :: n in Insert(x, s, MorePowerful()) <==> n == x || n in s
  {
    if s != [] && !MorePowerful()(x, s[0]) {
      InsertDistinct(x, s[1..]);
      var rest := Insert(x, s[1..], MorePowerful());
      assert Insert(x, s, MorePowerful()) == [s[0]] + rest;
      forall n | n in rest
        ensures n.nodeId != s[0].nodeId
      {
        if n != x {
          var k :| 0 <= k < |s[1..]| && s[1..][k] == n;
        }
      }
      assert forall n :: n in [s[0]] + rest <==> n == s[0] || n in rest;
    }
  }

  lemma {:induction false} SortDistinct(s: seq<NodeInfo>)
    requires DistinctIds(s)
    ensures DistinctIds(Sort(s, MorePowerful()))
    ensures forall n :: n in Sort(s, MorePowerful()) <==> n in s
  {
    if s != [] {
      SortDistinct(s[1..]);
      InsertDistinct(s[0], Sort(s[1..], MorePowerful()));
    }
  }

  lemma {:induction false} TableIsFree(ranked: seq<NodeInfo>, n: NodeInfo)
    requires DistinctIds(ranked) && n in ranked
    ensures SlotsOf(SlotTable(ranked), n.nodeId) == n.Free()
    decreases |ranked|
  {
    var last := ranked[|ranked| - 1];
    if n != last {
      assert n in ranked[..|ranked| - 1];
      TableIsFree(ranked[..|ranked| - 1], n);
    }
  }

  lemma {:induction false} SupplyIsExpansion(ranked: seq<NodeInfo>, slots: map<NodeId, nat>)
    requires DistinctIds(ranked) && forall n :: n in ranked ==> SlotsOf(slots, n.nodeId) == n.Free()
    ensures SlotSupply(NodeIds(ranked), slots) == NodeIds(Expand(ranked))
  {
    if ranked != [] {
      var n := ranked[0];
      SupplyIsExpansion(ranked[1..], slots[n.nodeId := 0]);
      NodeIdsOfRepeat(n, n.Free(), Expand(ranked[1..]));
      assert NodeIds(ranked)[1..] == NodeIds(ranked[1..]);
    }
  }

  lemma {:induction false} NodeIdsOfRepeat(n: NodeInfo, k: nat, rest: seq<NodeInfo>)
    ensures NodeIds(Repeat(n, k) + rest) == Repeat(n.nodeId, k) + NodeIds(rest)
  {
    if k == 0 {
      assert Repeat(n, k) + rest == rest;
    } else {
      NodeIdsOfRepeat(n, k - 1, rest);
      assert (Repeat(n, k) + rest)[1..] == Repeat(n, k - 1) + rest;
    }
  }

  lemma {:induction false} NodeIdsAt(s: seq<NodeInfo>)
    ensures |NodeIds(s)| == |s| && forall i :: 0 <= i < |s| ==> NodeIds(s)[i] == s[i].nodeId
  {
    if s != [] {
      NodeIdsAt(s[1..]);
    }
  }

  lemma {:induction false} NodesOfAt(a: seq<Assignment>)
    ensures |NodesOf(a)| == |a| && forall i :: 0 <= i < |a| ==> NodesOf(a)[i] == a[i].nodeId
    decreases |a|
  {
    if a != [] {
      NodesOfAt(a[..|a| - 1]);
    }
  }

  // ----- main results -----

  /**
   One call hands each job a prefix of its queue and records exactly that; the rest of the
   queue stays in order. It stops only when all queues or all free slots are used up.
   */
  lemma CallIsWorkConserving(jobs: map<JobId, JobSchedule>, order: seq<JobId>, nodes: seq<NodeInfo>)
    requires Enumerates(order, jobs.Keys) && DistinctIds(nodes)
    ensures forall j :: j in jobs ==>
              HandsOut(jobs[j], Greedy(jobs, order, Supply(nodes)).0[j], Greedy(jobs, order, Supply(nodes)).1, j)
    ensures |Greedy(jobs, order, Supply(nodes)).1| == Min(Sum(jobs.Keys, PendingCount(jobs)), FreeSlots(nodes))
  {
    CallHandsOut(jobs, order, Supply(nodes));
    CallFillsSupply(jobs, order, Supply(nodes));
    QueuedIsSum(jobs, order, jobs.Keys);
    var hosts := SupplyByNode(nodes);
  }

  /** No node is used more often than it has free slots. */
  ghost predicate WithinCapacity(hosts: seq<NodeInfo>) { forall n :: multiset(hosts)[n] <= n.Free() }

  lemma SupplyByNode(nodes: seq<NodeInfo>) returns (hosts: seq<NodeInfo>)
    requires DistinctIds(nodes)
    ensures Supply(nodes) == NodeIds(hosts) && |hosts| == |Supply(nodes)| == FreeSlots(nodes)
    ensures forall n :: n in hosts ==> n in nodes && CanTake(n)
    ensures Sorted(hosts, MorePowerful()) && WithinCapacity(hosts)
  {
    var available := Available(nodes);
    var ranked := Sort(available, MorePowerful());
    hosts := Expand(ranked);
    AvailableDistinct(nodes);
    SortDistinct(available);
    SortCorrect(available, MorePowerful());
    forall n | n in ranked
      ensures SlotsOf(SlotTable(ranked), n.nodeId) == n.Free()
    {
      TableIsFree(ranked, n);
    }
    SupplyIsExpansion(ranked, SlotTable(ranked));
    NodeIdsAt(hosts);
    ExpandSort(available);
    assert |hosts| == |multiset(hosts)| == |multiset(Expand(available))| == |Expand(available)|;
    ExpandAvailable(nodes);
    ExpandMembers(ranked);
    ExpandSorted(ranked);
    forall n
      ensures multiset(hosts)[n] <= n.Free()
    {
      ExpandWithinCapacity(ranked, n);
    }
  }

  /** How many of some assignments go to node `id`. */
  function GivenTo(a: seq<Assignment>, id: NodeId): nat {
    if a == [] then 0 else GivenTo(a[..|a| - 1], id) + if a[|a| - 1].nodeId == id then 1 else 0
  }

  lemma {:induction false} GivenIsCount(a: seq<Assignment>, hosts: seq<NodeInfo>, n: NodeInfo)
    requires |hosts| == |a| && forall i :: 0 <= i < |a| ==> hosts[i].nodeId == a[i].nodeId
    requires forall h :: h in hosts ==> h.nodeId == n.nodeId ==> h == n
    ensures GivenTo(a, n.nodeId) == multiset(hosts)[n]
    decreases |a|
  {
    if a != [] {
      var k := |a| - 1;
      GivenIsCount(a[..k], hosts[..k], n);
      assert hosts == hosts[..k] + [hosts[k]];
      assert hosts[k] in hosts;
    }
  }

  lemma OneEntryPerId(nodes: seq<NodeInfo>, h: NodeInfo, n: NodeInfo)
    requires DistinctIds(nodes) && h in nodes && n in nodes && h.nodeId == n.nodeId
    ensures h == n
  {
    var i :| 0 <= i < |nodes| && nodes[i] == h;
    var k :| 0 <= k < |nodes| && nodes[k] == n;
  }

  /** The workers running on a node and the assignments it gets are together within its maximum. */
  lemma {:induction false} NodeWithinMaximum(nodes: seq<NodeInfo>, a: seq<Assignment>, hosts: seq<NodeInfo>, n: NodeInfo)
    requires DistinctIds(nodes) && n in nodes && WithinCapacity(hosts) && GivenTo(a, n.nodeId) > 0
    requires |hosts| == |a| && forall i :: 0 <= i < |a| ==> hosts[i].nodeId == a[i].nodeId
    requires forall h :: h in hosts ==> h in nodes && h.status == Active
    ensures n.status == Active && GivenTo(a, n.nodeId) + n.activeWorkers <= n.maxConcurrentWorkers
  {
    forall h | h in hosts && h.nodeId == n.nodeId
      ensures h == n
    {
      OneEntryPerId(nodes, h, n);
    }
    GivenIsCount(a, hosts, n);
    assert multiset(hosts)[n] > 0 && n in hosts;
  }

  /**
   Every assignment goes to an Active node of the list. With what a node gets in one call it
   runs no more workers than its maximum, and along the result the nodes' free slots x cores
   never increase.
   */
  lemma CallRespectsNodes(jobs: map<JobId, JobSchedule>, order: seq<JobId>, nodes: seq<NodeInfo>)
    returns (hosts: seq<NodeInfo>)
    requires Enumerates(order, jobs.Keys) && DistinctIds(nodes)
    ensures var a := Greedy(jobs, order, Supply(nodes)).1;
            |hosts| == |a| && forall i :: 0 <= i < |a| ==> hosts[i].nodeId == a[i].nodeId
    ensures forall i :: 0 <= i < |hosts| ==> hosts[i] in nodes && hosts[i].status == Active
    ensures forall n :: n in nodes && GivenTo(Greedy(jobs, order, Supply(nodes)).1, n.nodeId) > 0 ==>
              GivenTo(Greedy(jobs, order, Supply(nodes)).1, n.nodeId) + n.activeWorkers <= n.maxConcurrentWorkers
    ensures forall i, j :: 0 <= i < j < |hosts| ==>
              (hosts[i].maxConcurrentWorkers - hosts[i].activeWorkers) * hosts[i].cpuCores
              >= (hosts[j].maxConcurrentWorkers - hosts[j].activeWorkers) * hosts[j].cpuCores
  {
    CallFillsSupply(jobs, order, Supply(nodes));
    var a := Greedy(jobs, order, Supply(nodes)).1;
    var all := SupplyByNode(nodes);
    hosts := HostsOf(all, a);
    forall i | 0 <= i < |hosts|
      ensures hosts[i] in nodes && CanTake(hosts[i])
    {
      assert hosts[i] in hosts && hosts[i] in all;
    }
    forall n | n in nodes && GivenTo(a, n.nodeId) > 0
      ensures GivenTo(a, n.nodeId) + n.activeWorkers <= n.maxConcurrentWorkers
    {
      NodeWithinMaximum(nodes, a, hosts, n);
    }
    forall i, j | 0 <= i < j < |hosts|
      ensures (hosts[i].maxConcurrentWorkers - hosts[i].activeWorkers) * hosts[i].cpuCores
              >= (hosts[j].maxConcurrentWorkers - hosts[j].activeWorkers) * hosts[j].cpuCores
    {
      ScoreIsPower(hosts[i]);
      ScoreIsPower(hosts[j]);
    }
  }

  lemma ScoreIsPower(n: NodeInfo)
    requires CanTake(n)
    ensures n.Score() == (n.maxConcurrentWorkers - n.activeWorkers) * n.cpuCores
  {
  }

  /** Assignments that fill a supply from its front go to the nodes at its front. */
  lemma HostsOf(all: seq<NodeInfo>, a: seq<Assignment>) returns (hosts: seq<NodeInfo>)
    requires NodesOf(a) <= NodeIds(all) && Sorted(all, MorePowerful()) && WithinCapacity(all)
    ensures |hosts| == |a| && (forall i :: 0 <= i < |a| ==> hosts[i].nodeId == a[i].nodeId)
    ensures forall h :: h in hosts ==> h in all
    ensures forall i, j :: 0 <= i < j < |hosts| ==> hosts[i].Score() >= hosts[j].Score()
    ensures WithinCapacity(hosts)
  {
    NodesOfAt(a);
    NodeIdsAt(all);
    hosts := all[..|a|];
    PrefixOfSupply(all, |a|);
  }

  lemma PrefixOfSupply(all: seq<NodeInfo>, k: nat)
    requires k <= |all| && Sorted(all, MorePowerful()) && WithinCapacity(all)
    ensures forall i, j :: 0 <= i < j < k ==> all[i].Score() >= all[j].Score()
    ensures WithinCapacity(all[..k])
  {
    assert multiset(all) == multiset(all[..k]) + multiset(all[k..]) by {
      assert all == all[..k] + all[k..];
    }
    forall n
      ensures multiset(all[..k])[n] <= n.Free()
    {
      assert multiset(all)[n] <= n.Free();
    }
    forall i, j | 0 <= i < j < k
      ensures all[i].Score() >= all[j].Score()
    {
      assert MorePowerful()(all[i], all[j]);
    }
  }

  /** From a complexity-sorted queue the hardest segments go first, and the rest stays sorted. */
  lemma HardestFirst(js: JobSchedule, js': JobSchedule, a: seq<Assignment>, j: JobId)
    requires HandsOut(js, js', a, j) && Sorted(js.pending, HarderFirst())
    ensures Sorted(SegmentsOf(a, j), HarderFirst()) && Sorted(js'.pending, HarderFirst())
    ensures forall x, y :: x in SegmentsOf(a, j) && y in js'.pending ==> x.complexity >= y.complexity
  {
    var given, left := SegmentsOf(a, j), js'.pending;
    forall i, k | 0 <= i < k < |given|
      ensures HarderFirst()(given[i], given[k])
    {
      assert HarderFirst()(js.pending[i], js.pending[k]);
    }
    forall i, k | 0 <= i < k < |left|
      ensures HarderFirst()(left[i], left[k])
    {
      assert HarderFirst()(js.pending[|given| + i], js.pending[|given| + k]);
    }
    forall x, y | x in given && y in left
      ensures x.complexity >= y.complexity
    {
      var i :| 0 <= i < |given| && given[i] == x;
      var k :| 0 <= k < |left| && left[k] == y;
      assert HarderFirst()(js.pending[i], js.pending[|given| + k]);
    }
  }

  /** The segments of complexity `c`, in order. */
  function OfComplexity(s: seq<SegmentDescriptor>, c: real): seq<SegmentDescriptor> {
    if s == [] then [] else IfComplexity(s[0], c) + OfComplexity(s[1..], c)
  }

  function IfComplexity(x: SegmentDescriptor, c: real): seq<SegmentDescriptor> { if x.complexity == c then [x] else [] }

  lemma OfComplexityCons(x: SegmentDescriptor, s: seq<SegmentDescriptor>, c: real)
    ensures OfComplexity([x] + s, c) == IfComplexity(x, c) + OfComplexity(s, c)
  {
    assert ([x] + s)[1..] == s;
  }

  lemma OneIsEmpty<T>(a: seq<T>, b: seq<T>, rest: seq<T>)
    requires a == [] || b == []
    ensures a + (b + rest) == b + (a + rest)
  {
    assert [] + rest == rest;
  }

  lemma {:induction false} InsertBeforeEqual(x: SegmentDescriptor, s: seq<SegmentDescriptor>, c: real)
    ensures OfComplexity(Insert(x, s, HarderFirst()), c) == IfComplexity(x, c) + OfComplexity(s, c)
  {
    if s == [] || HarderFirst()(x, s[0]) {
      OfComplexityCons(x, s, c);
    } else {
      var y, tail := s[0], s[1..];
      InsertBeforeEqual(x, tail, c);
      OfComplexityCons(y, Insert(x, tail, HarderFirst()), c);
      assert IfComplexity(x, c) == [] || IfComplexity(y, c) == [];
      OneIsEmpty(IfComplexity(x, c), IfComplexity(y, c), OfComplexity(tail, c));
    }
  }

  lemma {:induction false} EqualKeepOrder(s: seq<SegmentDescriptor>, c: real)
    ensures OfComplexity(Sort(s, HarderFirst()), c) == OfComplexity(s, c)
  {
    if s != [] {
      EqualKeepOrder(s[1..], c);
      InsertBeforeEqual(s[0], Sort(s[1..], HarderFirst()), c);
    }
  }

  /**
   A new job's queue holds its segments from the most to the least complex, equally complex
   ones in their order; nothing is assigned or has an outcome yet.
   */
  lemma NewJobQueue(segments: seq<SegmentDescriptor>)
    ensures var js := NewJob(segments);
            && multiset(js.pending) == multiset(segments) && js.total == |segments|
            && (forall i, k :: 0 <= i < k < |js.pending| ==> js.pending[i].complexity >= js.pending[k].complexity)
            && (forall c :: OfComplexity(js.pending, c) == OfComplexity(segments, c))
            && js.assignee == map[] && js.completed == map[] && js.failed == map[]
  {
    var js := NewJob(segments);
    SortCorrect(segments, HarderFirst());
    forall i, k | 0 <= i < k < |js.pending|
      ensures js.pending[i].complexity >= js.pending[k].complexity
    {
      assert HarderFirst()(js.pending[i], js.pending[k]);
    }
    forall c
      ensures OfComplexity(js.pending, c) == OfComplexity(segments, c)
    {
      EqualKeepOrder(segments, c);
    }
  }

  /** A returned segment waits until all that were queued before it have been handed out. */
  lemma ReturnedWaits(js: JobSchedule, x: SegmentDescriptor, js': JobSchedule, a: seq<Assignment>, j: JobId)
    requires HandsOut(js.Requeue(x), js', a, j)
    ensures if |SegmentsOf(a, j)| <= |js.pending|
            then js.pending == SegmentsOf(a, j) + js'.pending[..|js'.pending| - 1] && js'.pending[|js'.pending| - 1] == x
            else js'.pending == [] && SegmentsOf(a, j) == js.pending + [x]
  {
    var given, left := SegmentsOf(a, j), js'.pending;
    assert js.pending + [x] == given + left;
    if |given| <= |js.pending| {
      assert (given + left)[..|js.pending|] == given + left[..|left| - 1];
      assert (given + left)[|js.pending|] == left[|left| - 1];
    }
  }

  /**
   A dead node's segments leave the table and wait behind the queue as empty placeholders,
   each once; every other assignment and every outcome stays.
   */
  lemma DeadNodeEmptied(js: JobSchedule, dead: NodeId, ids: seq<nat>)
    requires Enumerates(ids, js.IdsOn(dead))
    ensures var js' := js.Reassign(ids);
            && (forall i :: i in js'.assignee <==> i in js.assignee && js.assignee[i] != dead)
            && (forall i :: i in js'.assignee ==> js'.assignee[i] == js.assignee[i])
            && |js'.pending| == |js.pending| + |ids| && js.pending <= js'.pending
            && (forall k :: 0 <= k < |ids| ==> js'.pending[|js.pending| + k] == Placeholder(ids[k]))
            && (forall i :: i in ids <==> i in js.assignee && js.assignee[i] == dead)
            && js'.completed == js.completed && js'.failed == js.failed && js'.total == js.total
    ensures forall i :: i in ids ==> Placeholder(i).id == i && Placeholder(i).startFrame == Placeholder(i).endFrame == 0
  {
  }

  lemma SingleNodeSupply(n: NodeInfo)
    requires CanTake(n)
    ensures Supply([n]) == Repeat(n.nodeId, n.Free())
  {
    assert [n][1..] == [] && [n.nodeId][1..] == [] && [n][..0] == [];
    assert Available([n]) == [n] + Available([]) == [n];
    assert Sort([n], MorePowerful()) == [n];
    assert NodeIds([n]) == [n.nodeId] + NodeIds([]) == [n.nodeId];
    assert SlotTable([n]) == map[n.nodeId := n.Free()];
    assert SlotSupply([n.nodeId], SlotTable([n])) == Repeat(n.nodeId, n.Free()) + [];
  }

  lemma SingleJobCall(jobs: map<JobId, JobSchedule>, j: JobId, supply: seq<NodeId>)
    requires jobs.Keys == {j}
    ensures Greedy(jobs, [j], supply).0 == map[j := AssignJob(j, jobs[j], supply).0]
  {
    assert [j][..0] == [] && supply[0..] == supply;
    assert Greedy(jobs, [], supply) == (jobs, []);
  }
}
