/**
 The segment scheduler (cluster/src/scheduler.rs). Per-job queues and tables are values held
 in the scheduler's job table; hash tables are walked in an arbitrary order, which the
 methods return as a ghost result.
 */
module Scheduler {
  import opened Common
  import opened Collections

  datatype SegmentDescriptor = SegmentDescriptor(
    id: nat, startFrame: nat, endFrame: nat, startTimestamp: real, endTimestamp: real,
    lookaheadFrames: Option<nat>, complexity: real, sceneChanges: seq<nat>, copy: bool)

  datatype SegmentResult = SegmentResult(
    segmentId: nat, workerId: nat, nodeId: NodeId, framesEncoded: nat, outputSizeBytes: nat)

  datatype NodeStatus = Joining | Active | Busy | Draining | Dead

  datatype NodeInfo = NodeInfo(
    nodeId: NodeId, cpuCores: nat, maxConcurrentWorkers: nat, activeWorkers: nat, status: NodeStatus)
  {
    /** Worker slots the node reports free (a saturating subtraction). */
    function Free(): nat {
      if activeWorkers < maxConcurrentWorkers then maxConcurrentWorkers - activeWorkers else 0
    }

    function Score(): nat { Free() * cpuCores }
  }

  datatype Assignment = Assignment(jobId: JobId, segment: SegmentDescriptor, nodeId: NodeId)

  datatype JobSchedule = JobSchedule(
    total: nat, pending: seq<SegmentDescriptor>, assignee: map<nat, NodeId>,
    completed: map<nat, SegmentResult>, failed: map<nat, string>)
  {
    function MarkComplete(result: SegmentResult): JobSchedule {
      this.(assignee := assignee - {result.segmentId}, completed := completed[result.segmentId := result])
    }

    function MarkFailed(id: nat, error: string): JobSchedule {
      this.(assignee := assignee - {id}, failed := failed[id := error])
    }

    function Requeue(segment: SegmentDescriptor): JobSchedule {
      this.(assignee := assignee - {segment.id}, failed := failed - {segment.id}, pending := pending + [segment])
    }

    /** The head of the queue is handed to `node`. */
    function Assign(node: NodeId): JobSchedule
      requires pending != []
    {
      this.(pending := pending[1..], assignee := assignee[pending[0].id := node])
    }

    /** Ids assigned to `node`. */
    function IdsOn(node: NodeId): set<nat> { set i | i in assignee && assignee[i] == node }

    /** Back to the queue with the ids in `moved`, in that order and as placeholders. */
    function Reassign(moved: seq<nat>): JobSchedule {
      this.(assignee := assignee - ToSet(moved), pending := pending + Placeholders(moved))
    }

    function Finished(): bool { |completed| + |failed| >= total }
  }

  function ToSet<T(==)>(s: seq<T>): set<T> { set x | x in s }

  function Placeholder(id: nat): SegmentDescriptor {
    SegmentDescriptor(id, 0, 0, 0.0, 0.0, None, 0.5, [], false)
  }

  function Placeholders(ids: seq<nat>): seq<SegmentDescriptor> {
    seq(|ids|, i requires 0 <= i < |ids| => Placeholder(ids[i]))
  }

  /** Most complex first. */
  function HarderFirst(): (SegmentDescriptor, SegmentDescriptor) -> bool {
    (a: SegmentDescriptor, b: SegmentDescriptor) => a.complexity >= b.complexity
  }

  function NewJob(segments: seq<SegmentDescriptor>): JobSchedule {
    JobSchedule(|segments|, Sort(segments, HarderFirst()), map[], map[], map[])
  }

  // ----- which node takes the next segment -----

  /** A node that can take work, with the slots it had free when the list was made. */
  function MorePowerful(): (NodeInfo, NodeInfo) -> bool {
    (a: NodeInfo, b: NodeInfo) => a.Score() >= b.Score()
  }

  predicate CanTake(n: NodeInfo) { n.status == Active && n.Free() > 0 }

  function Available(nodes: seq<NodeInfo>): seq<NodeInfo> {
    if nodes == [] then []
    else (if CanTake(nodes[0]) then [nodes[0]] else []) + Available(nodes[1..])
  }

  function NodeIds(nodes: seq<NodeInfo>): seq<NodeId> {
    if nodes == [] then [] else [nodes[0].nodeId] + NodeIds(nodes[1..])
  }

  /** Free slots by node id; a later entry for the same id replaces an earlier one. */
  function SlotTable(nodes: seq<NodeInfo>): map<NodeId, nat> {
    if nodes == [] then map[]
    else SlotTable(nodes[..|nodes| - 1])[nodes[|nodes| - 1].nodeId := nodes[|nodes| - 1].Free()]
  }

  function SlotsOf(slots: map<NodeId, nat>, n: NodeId): nat { if n in slots then slots[n] else 0 }

  /** Every free slot, in the order in which segments will fill them. */
  function SlotSupply(order: seq<NodeId>, slots: map<NodeId, nat>): seq<NodeId> {
    if order == [] then []
    else Repeat(order[0], SlotsOf(slots, order[0])) + SlotSupply(order[1..], slots[order[0] := 0])
  }

  function Supply(nodes: seq<NodeInfo>): seq<NodeId> {
    var ranked := Sort(Available(nodes), MorePowerful());
    SlotSupply(NodeIds(ranked), SlotTable(ranked))
  }

  // ----- what one scheduling call does -----

  /** The first segments of a queue take the first slots of `supply`, one each. */
  function AssignJob(job: JobId, js: JobSchedule, supply: seq<NodeId>): (r: (JobSchedule, seq<Assignment>))
    ensures |r.1| == Min(|js.pending|, |supply|)
    decreases |supply|
  {
    if js.pending == [] || supply == [] then (js, [])
    else
      var segment, node := js.pending[0], supply[0];
      var (js', more) := AssignJob(job, js.Assign(node), supply[1..]);
      (js', [Assignment(job, segment, node)] + more)
  }

  /** Jobs in the given order, each taking what the earlier ones left of the supply. */
  function Greedy(jobs: map<JobId, JobSchedule>, order: seq<JobId>, supply: seq<NodeId>)
    : (r: (map<JobId, JobSchedule>, seq<Assignment>))
    requires forall j :: j in order ==> j in jobs
    ensures r.0.Keys == jobs.Keys && |r.1| <= |supply|
  {
    if order == [] then (jobs, [])
    else
      var j := order[|order| - 1];
      var (before, sofar) := Greedy(jobs, order[..|order| - 1], supply);
      var (js, more) := AssignJob(j, before[j], supply[|sofar|..]);
      (before[j := js], sofar + more)
  }

  /** `moved` lists, job by job, the segments assigned to `dead` in the order they are requeued. */
  ghost predicate Moves(jobs: map<JobId, JobSchedule>, dead: NodeId, moved: map<JobId, seq<nat>>) {
    forall j :: j in moved ==> j in jobs && Enumerates(moved[j], jobs[j].IdsOn(dead))
  }

  ghost function ReassignAll(jobs: map<JobId, JobSchedule>, moved: map<JobId, seq<nat>>): map<JobId, JobSchedule> {
    map j | j in jobs :: if j in moved then jobs[j].Reassign(moved[j]) else jobs[j]
  }

  /** How many segments of each job are assigned to `node`. */
  ghost function CountOn(jobs: map<JobId, JobSchedule>, node: NodeId): JobId -> nat {
    (j: JobId) => if j in jobs then |jobs[j].IdsOn(node)| else 0
  }

  /** The same, added up along a walk of the jobs. */
  ghost function CountAlong(jobs: map<JobId, JobSchedule>, node: NodeId, order: seq<JobId>): nat {
    if order == [] then 0
    else CountAlong(jobs, node, order[..|order| - 1]) + CountOn(jobs, node)(order[|order| - 1])
  }

  lemma {:induction false} CountAlongIsSum(jobs: map<JobId, JobSchedule>, node: NodeId, order: seq<JobId>, keys: set<JobId>)
    requires Enumerates(order, keys)
    ensures CountAlong(jobs, node, order) == Sum(keys, CountOn(jobs, node))
    decreases |order|
  {
    if order != [] {
      var last, front := order[|order| - 1], order[..|order| - 1];
      assert Enumerates(front, keys - {last});
      CountAlongIsSum(jobs, node, front, keys - {last});
      SumTake(keys, CountOn(jobs, node), last);
    } else {
      assert keys == {};
    }
  }

  lemma CountOneMore(jobs: map<JobId, JobSchedule>, node: NodeId, order: seq<JobId>, job: JobId)
    requires job in jobs
    ensures CountAlong(jobs, node, order + [job]) == CountAlong(jobs, node, order) + |jobs[job].IdsOn(node)|
  {
    assert (order + [job])[..|order|] == order;
  }

  /** The table and queue of `js` after the ids in `ids` were moved from one to the other. */
  ghost predicate Moved(js: JobSchedule, ids: seq<nat>, assignee: map<nat, NodeId>, pending: seq<SegmentDescriptor>) {
    js.Reassign(ids) == js.(assignee := assignee, pending := pending)
  }

  lemma MoveOneMore(js: JobSchedule, ids: seq<nat>, assignee: map<nat, NodeId>, pending: seq<SegmentDescriptor>, id: nat)
    requires Moved(js, ids, assignee, pending)
    ensures Moved(js, ids + [id], assignee - {id}, pending + [Placeholder(id)])
  {
    assert ToSet(ids + [id]) == ToSet(ids) + {id};
    assert Placeholders(ids + [id]) == Placeholders(ids) + [Placeholder(id)];
  }

  lemma ReassignOneMore(jobs: map<JobId, JobSchedule>, dead: NodeId, moved: map<JobId, seq<nat>>, j: JobId, ids: seq<nat>)
    requires j in jobs && j !in moved && Moves(jobs, dead, moved)
    requires var js := ReassignAll(jobs, moved)[j]; Enumerates(ids, js.IdsOn(dead))
    ensures ReassignAll(jobs, moved)[j] == jobs[j] && Moves(jobs, dead, moved[j := ids])
    ensures ReassignAll(jobs, moved[j := ids]) == ReassignAll(jobs, moved)[j := jobs[j].Reassign(ids)]
  {
  }

  /** The first node in the order with a slot left. */
  function FirstFree(order: seq<NodeId>, slots: map<NodeId, nat>): Option<NodeId> {
    if order == [] then None
    else if SlotsOf(slots, order[0]) > 0 then Some(order[0])
    else FirstFree(order[1..], slots)
  }

  lemma {:induction false} FirstFreeIgnoresEmpty(order: seq<NodeId>, slots: map<NodeId, nat>, n: NodeId)
    requires SlotsOf(slots, n) == 0
    ensures FirstFree(order, slots[n := 0]) == FirstFree(order, slots)
  {
    if order != [] {
      FirstFreeIgnoresEmpty(order[1..], slots, n);
    }
  }

  /** Giving a segment to the first free node uses up the head of the supply. */
  lemma {:induction false} FirstFreeHeadsSupply(order: seq<NodeId>, slots: map<NodeId, nat>)
    ensures match FirstFree(order, slots)
            case None => SlotSupply(order, slots) == []
            case Some(n) =>
              SlotsOf(slots, n) > 0 && SlotSupply(order, slots) == [n] + SlotSupply(order, slots[n := slots[n] - 1])
    decreases |order|
  {
    if order != [] && SlotsOf(slots, order[0]) > 0 {
      HeadIsFree(order, slots);
    } else if order != [] {
      FirstFreeIgnoresEmpty(order[1..], slots, order[0]);
      FirstFreeHeadsSupply(order[1..], slots[order[0] := 0]);
      if FirstFree(order, slots).Some? {
        HeadIsFull(order, slots, FirstFree(order, slots).value);
      }
    }
  }

  lemma HeadIsFree(order: seq<NodeId>, slots: map<NodeId, nat>)
    requires order != [] && SlotsOf(slots, order[0]) > 0
    ensures SlotSupply(order, slots) == [order[0]] + SlotSupply(order, slots[order[0] := slots[order[0]] - 1])
  {
    var n, k := order[0], slots[order[0]];
    var fewer, tail := slots[n := k - 1], SlotSupply(order[1..], slots[n := 0]);
    assert fewer[n := 0] == slots[n := 0] && SlotsOf(fewer, n) == k - 1;
    assert SlotSupply(order, fewer) == Repeat(n, k - 1) + tail;
    assert SlotSupply(order, slots) == Repeat(n, k) + tail;
    assert Repeat(n, k) == [n] + Repeat(n, k - 1);
    Assoc([n], Repeat(n, k - 1), tail);
  }

  lemma Assoc<T>(a: seq<T>, b: seq<T>, c: seq<T>)
    ensures (a + b) + c == a + (b + c)
  {
  }

  lemma HeadIsFull(order: seq<NodeId>, slots: map<NodeId, nat>, n: NodeId)
    requires order != [] && SlotsOf(slots, order[0]) == 0 && SlotsOf(slots, n) > 0
    ensures SlotSupply(order, slots) == SlotSupply(order[1..], slots[order[0] := 0])
    ensures SlotSupply(order, slots[n := slots[n] - 1])
         == SlotSupply(order[1..], slots[order[0] := 0][n := slots[n] - 1])
  {
    assert slots[order[0] := 0][n := slots[n] - 1] == slots[n := slots[n] - 1][order[0] := 0];
  }

  lemma {:induction false} GreedyWithoutSupply(jobs: map<JobId, JobSchedule>, order: seq<JobId>)
    requires forall j :: j in order ==> j in jobs
    ensures Greedy(jobs, order, []) == (jobs, [])
    decreases |order|
  {
    if order != [] {
      GreedyWithoutSupply(jobs, order[..|order| - 1]);
      var j := order[|order| - 1];
      assert jobs[j := jobs[j]] == jobs;
    }
  }

  /** The nodes of a list of assignments. */
  function NodesOf(a: seq<Assignment>): seq<NodeId> {
    if a == [] then [] else NodesOf(a[..|a| - 1]) + [a[|a| - 1].nodeId]
  }

  /** `more` has been handed out; the job's turn goes on from `cur` with the slots in `rest`. */
  ghost predicate Turn(job: JobId, js: JobSchedule, supply: seq<NodeId>,
                       cur: JobSchedule, more: seq<Assignment>, rest: seq<NodeId>)
  {
    && supply == NodesOf(more) + rest
    && AssignJob(job, js, supply).0 == AssignJob(job, cur, rest).0
    && AssignJob(job, js, supply).1 == more + AssignJob(job, cur, rest).1
  }

  lemma TurnTakes(job: JobId, js: JobSchedule, supply: seq<NodeId>,
                  cur: JobSchedule, more: seq<Assignment>, rest: seq<NodeId>)
    requires Turn(job, js, supply, cur, more, rest) && cur.pending != [] && rest != []
    ensures Turn(job, js, supply, cur.Assign(rest[0]), more + [Assignment(job, cur.pending[0], rest[0])], rest[1..])
  {
    var a := Assignment(job, cur.pending[0], rest[0]);
    assert (more + [a])[..|more|] == more;
  }

  lemma TurnEnds(job: JobId, js: JobSchedule, supply: seq<NodeId>,
                 cur: JobSchedule, more: seq<Assignment>, rest: seq<NodeId>)
    requires Turn(job, js, supply, cur, more, rest) && (cur.pending == [] || rest == [])
    ensures AssignJob(job, js, supply) == (cur, more) && supply == NodesOf(more) + rest
  {
    assert more + [] == more;
  }

  lemma TurnBegins(job: JobId, js: JobSchedule, supply: seq<NodeId>)
    ensures Turn(job, js, supply, js, [], supply)
  {
    assert [] + AssignJob(job, js, supply).1 == AssignJob(job, js, supply).1;
  }

  lemma {:induction false} NodesOfAppend(a: seq<Assignment>, b: seq<Assignment>)
    ensures NodesOf(a + b) == NodesOf(a) + NodesOf(b) && |NodesOf(a)| == |a|
    decreases |a| + |b|
  {
    if b != [] {
      NodesOfAppend(a, b[..|b| - 1]);
      assert (a + b)[..|a + b| - 1] == a + b[..|b| - 1];
    } else {
      assert a + b == a;
      if a != [] {
        NodesOfAppend(a[..|a| - 1], []);
      }
    }
  }

  lemma RestOfSupply(a: seq<Assignment>, more: seq<Assignment>, rest: seq<NodeId>, supply: seq<NodeId>)
    requires supply == NodesOf(a) + (NodesOf(more) + rest)
    ensures supply == NodesOf(a + more) + rest && |a| <= |supply| && supply[|a|..] == NodesOf(more) + rest
  {
    NodesOfAppend(a, more);
  }

  lemma EnumerateMore<T>(s: seq<T>, keys: set<T>, x: T)
    requires Enumerates(s, keys) && x !in keys
    ensures Enumerates(s + [x], keys + {x})
  {
  }

  lemma GreedyOneMore(jobs: map<JobId, JobSchedule>, order: seq<JobId>, job: JobId, supply: seq<NodeId>)
    requires (forall j :: j in order ==> j in jobs) && job in jobs
    ensures var (before, sofar) := Greedy(jobs, order, supply);
            var (js, more) := AssignJob(job, before[job], supply[|sofar|..]);
            Greedy(jobs, order + [job], supply) == (before[job := js], sofar + more)
  {
    assert (order + [job])[..|order|] == order;
  }

  /** Finds the best node with remaining slots and uses one of them. */
  method TakeSlot(order: seq<NodeId>, slots: map<NodeId, nat>) returns (best: Option<NodeId>, slots': map<NodeId, nat>)
    ensures SlotSupply(order, slots) == if best.Some? then [best.value] + SlotSupply(order, slots') else []
    ensures best.None? ==> slots' == slots
  {
    FirstFreeHeadsSupply(order, slots);
    best, slots' := FirstFree(order, slots), slots;
    if best.Some? {
      slots' := slots[best.value := slots[best.value] - 1];
    }
  }

  /** One job's turn: segments leave the queue for the first free node, or come back to it. */
  method DrainQueue(job: JobId, js: JobSchedule, nodeOrder: seq<NodeId>, slotsBefore: map<NodeId, nat>)
    returns (js': JobSchedule, slots: map<NodeId, nat>, more: seq<Assignment>)
    ensures (js', more) == AssignJob(job, js, SlotSupply(nodeOrder, slotsBefore))
    ensures NodesOf(more) + SlotSupply(nodeOrder, slots) == SlotSupply(nodeOrder, slotsBefore)
  {
    var cur, unassigned := js, [];
    slots, more := slotsBefore, [];
    ghost var supply := SlotSupply(nodeOrder, slots);
    TurnBegins(job, js, supply);
    while cur.pending != []
      invariant unassigned == [] ==> Turn(job, js, supply, cur, more, SlotSupply(nodeOrder, slots))
      invariant unassigned != [] ==> SlotSupply(nodeOrder, slots) == []
      invariant unassigned != [] ==> Turn(job, js, supply, cur.(pending := unassigned + cur.pending), more, [])
      decreases |cur.pending|
    {
      var segment := cur.pending[0];
      ghost var rest := SlotSupply(nodeOrder, slots);
      var best;
      best, slots := TakeSlot(nodeOrder, slots);
      if best.Some? {
        TurnTakes(job, js, supply, cur, more, rest);
        assert rest[1..] == SlotSupply(nodeOrder, slots);
        cur := cur.Assign(best.value);
        more := more + [Assignment(job, segment, best.value)];
      } else {
        assert unassigned + cur.pending == unassigned + [segment] + cur.pending[1..];
        assert unassigned == [] ==> cur.(pending := [] + cur.pending) == cur;
        cur := cur.(pending := cur.pending[1..]);
        unassigned := unassigned + [segment];
      }
    }
    js' := cur.(pending := unassigned);
    assert unassigned + [] == unassigned;
    TurnEnds(job, js, supply, js', more, SlotSupply(nodeOrder, slots));
  }

  /** Each of the given segments leaves the table and joins the queue as a placeholder. */
  method RequeueIds(js: JobSchedule, affected: set<nat>) returns (js': JobSchedule, requeued: nat, ghost ids: seq<nat>)
    ensures Enumerates(ids, affected) && requeued == |affected|
    ensures js' == js.Reassign(ids)
  {
    var todo, assignee, pending := affected, js.assignee, js.pending;
    requeued, ids := 0, [];
    ghost var done := {};
    assert Moved(js, [], assignee, pending);
    while todo != {}
      invariant done + todo == affected && done !! todo
      invariant Enumerates(ids, done) && requeued == |done|
      invariant Moved(js, ids, assignee, pending)
    {
      var id :| id in todo;
      EnumerateMore(ids, done, id);
      MoveOneMore(js, ids, assignee, pending, id);
      todo, done := todo - {id}, done + {id};
      ids := ids + [id];
      assignee := assignee - {id};
      pending := pending + [Placeholder(id)];
      requeued := requeued + 1;
    }
    assert done == affected;
    js' := js.(assignee := assignee, pending := pending);
  }

  /** The node's segments of one job leave the table and join the queue as placeholders. */
  method ReassignJob(js: JobSchedule, dead: NodeId) returns (js': JobSchedule, requeued: nat, ghost ids: seq<nat>)
    ensures Enumerates(ids, js.IdsOn(dead)) && requeued == |js.IdsOn(dead)|
    ensures js' == js.Reassign(ids)
  {
    js', requeued, ids := RequeueIds(js, js.IdsOn(dead));
  }

  method EmptyNode(was: map<JobId, JobSchedule>, dead: NodeId)
    returns (jobs: map<JobId, JobSchedule>, requeued: nat, ghost moved: map<JobId, seq<nat>>)
    ensures Moves(was, dead, moved) && moved.Keys == was.Keys && jobs == ReassignAll(was, moved)
    ensures requeued == Sum(was.Keys, CountOn(was, dead))
  {
    jobs, requeued, moved := was, 0, map[];
    var todo := was.Keys;
    ghost var order := [];
    while todo != {}
      invariant todo <= was.Keys && moved.Keys == was.Keys - todo && Moves(was, dead, moved)
      invariant jobs == ReassignAll(was, moved)
      invariant Enumerates(order, moved.Keys) && requeued == CountAlong(was, dead, order)
    {
      var job :| job in todo;
      var js, n, ids := ReassignJob(jobs[job], dead);
      ReassignOneMore(was, dead, moved, job, ids);
      CountOneMore(was, dead, order, job);
      EnumerateMore(order, moved.Keys, job);
      todo := todo - {job};
      jobs := jobs[job := js];
      moved := moved[job := ids];
      order := order + [job];
      assert moved.Keys == was.Keys - todo;
      requeued := requeued + n;
    }
    assert moved.Keys == was.Keys;
    CountAlongIsSum(was, dead, order, was.Keys);
  }

  class Scheduler {
    var jobs: map<JobId, JobSchedule>

    constructor ()
      ensures jobs == map[]
    {
      jobs := map[];
    }

    method AddJob(job: JobId, segments: seq<SegmentDescriptor>)
      modifies this
      ensures jobs == old(jobs)[job := NewJob(segments)]
    {
      jobs := jobs[job := NewJob(segments)];
    }

    /** Hands pending segments to nodes with free slots, walking the jobs in some order. */
    method Schedule(nodes: seq<NodeInfo>) returns (assignments: seq<Assignment>, ghost order: seq<JobId>)
      modifies this
      ensures Enumerates(order, old(jobs).Keys)
      ensures (jobs, assignments) == Greedy(old(jobs), order, Supply(nodes))
    {
      assignments, order := [], [];
      var available := Sort(Available(nodes), MorePowerful());
      if available == [] {
        order := Enumerate(jobs.Keys);
        GreedyWithoutSupply(jobs, order);
        return;
      }
      var slots, nodeOrder := SlotTable(available), NodeIds(available);
      var todo := jobs.Keys;
      ghost var was, supply, done := jobs, Supply(nodes), {};
      while todo != {}
        invariant done + todo == was.Keys && done !! todo && Enumerates(order, done)
        invariant (jobs, assignments) == Greedy(was, order, supply)
        invariant supply == NodesOf(assignments) + SlotSupply(nodeOrder, slots)
      {
        var job :| job in todo;
        EnumerateMore(order, done, job);
        GreedyOneMore(was, order, job, supply);
        todo, done := todo - {job}, done + {job};
        order := order + [job];
        var js, more;
        js, slots, more := DrainQueue(job, jobs[job], nodeOrder, slots);
        RestOfSupply(assignments, more, SlotSupply(nodeOrder, slots), supply);
        jobs := jobs[job := js];
        assignments := assignments + more;
      }
      assert done == was.Keys;
    }

    method MarkComplete(job: JobId, result: SegmentResult)
      modifies this
      ensures jobs == if job in old(jobs) then old(jobs)[job := old(jobs)[job].MarkComplete(result)] else old(jobs)
    {
      if job in jobs {
        var js := jobs[job];
        jobs := jobs[job := js.(assignee := js.assignee - {result.segmentId},
                                completed := js.completed[result.segmentId := result])];
      }
    }

    method MarkFailed(job: JobId, id: nat, error: string)
      modifies this
      ensures jobs == if job in old(jobs) then old(jobs)[job := old(jobs)[job].MarkFailed(id, error)] else old(jobs)
    {
      if job in jobs {
        var js := jobs[job];
        jobs := jobs[job := js.(assignee := js.assignee - {id}, failed := js.failed[id := error])];
      }
    }

    method RequeueSegment(job: JobId, segment: SegmentDescriptor)
      modifies this
      ensures jobs == if job in old(jobs) then old(jobs)[job := old(jobs)[job].Requeue(segment)] else old(jobs)
    {
      if job in jobs {
        var js := jobs[job];
        jobs := jobs[job := js.(assignee := js.assignee - {segment.id}, failed := js.failed - {segment.id},
                                pending := js.pending + [segment])];
      }
    }

    /** Puts every segment assigned to a dead node back in its queue; `moved` is the order per job. */
    method ReassignFromNode(dead: NodeId) returns (requeued: nat, ghost moved: map<JobId, seq<nat>>)
      modifies this
      ensures Moves(old(jobs), dead, moved) && moved.Keys == old(jobs).Keys
      ensures jobs == ReassignAll(old(jobs), moved)
      ensures requeued == Sum(old(jobs).Keys, CountOn(old(jobs), dead))
    {
      jobs, requeued, moved := EmptyNode(jobs, dead);
    }
  }
}
