/** A worker node's side: tasks it has started and the reports it relays (cluster/src/main.rs). */
module Worker {
  import opened Common
  import opened Collections
  import opened Scheduler
  import opened Master
  import opened Placement
  import opened Cluster

  /** What polling a task's channel gives: its outcome, or that it ended without one. */
  type Polled = Option<Outcome>

  /** The reports for the polled tasks in `order`; a task that ended without an outcome has none. */
  function Reports(node: NodeId, tasks: map<nat, JobId>, ready: map<nat, Polled>, order: seq<nat>): seq<Mail>
    requires forall id :: id in order ==> id in tasks && id in ready
  {
    if order == [] then []
    else
      var id := order[|order| - 1];
      Reports(node, tasks, ready, order[..|order| - 1])
      + (if ready[id].Some? then [ReportOf(node, tasks[id], id, ready[id].value)] else [])
  }

  lemma OneMoreReport(node: NodeId, tasks: map<nat, JobId>, ready: map<nat, Polled>, order: seq<nat>, id: nat, sent: seq<Mail>)
    requires forall k :: k in order + [id] ==> k in tasks && k in ready
    ensures sent + Reports(node, tasks, ready, order + [id])
         == sent + Reports(node, tasks, ready, order)
            + (if ready[id].Some? then [ReportOf(node, tasks[id], id, ready[id].value)] else [])
  {
    assert (order + [id])[..|order|] == order;
  }

  lemma OneReport(node: NodeId, job: JobId, id: nat, o: Outcome, j: JobId, i: nat)
    ensures CountMail([ReportOf(node, job, id, o)], j, i, node) == Bit(job == j && id == i)
  {
    CountOne(ReportOf(node, job, id, o), j, i, node);
  }

  /** Each polled task with an outcome is reported once, and nothing else is. */
  lemma {:induction false} ReportsCounted(node: NodeId, tasks: map<nat, JobId>, ready: map<nat, Polled>, order: seq<nat>, j: JobId, i: nat)
    requires Distinct(order) && forall id :: id in order ==> id in tasks && id in ready
    ensures CountMail(Reports(node, tasks, ready, order), j, i, node)
         == Bit(i in order && tasks[i] == j && ready[i].Some?)
    decreases |order|
  {
    if order != [] {
      var id, front := order[|order| - 1], order[..|order| - 1];
      assert order == front + [id] && id !in front;
      ReportsCounted(node, tasks, ready, front, j, i);
      if ready[id].Some? {
        CountAppend(Reports(node, tasks, ready, front), [ReportOf(node, tasks[id], id, ready[id].value)], j, i, node);
        OneReport(node, tasks[id], id, ready[id].value, j, i);
      } else {
        assert Reports(node, tasks, ready, order) == Reports(node, tasks, ready, front);
      }
    }
  }

  /** An encoded segment is reported complete with just that result and URL, an error as a failure. */
  ghost predicate Tells(sent: seq<Mail>, node: NodeId, job: JobId, id: nat, o: Outcome) {
    match o
    case Encoded(w, frames, bytes, url) => Complete(job, SegmentResult(id, w, node, frames, bytes), url) in sent
    case Error(message) => Failed(job, id, node, message) in sent
  }

  lemma {:induction false} ReportsTell(node: NodeId, tasks: map<nat, JobId>, ready: map<nat, Polled>, order: seq<nat>, id: nat)
    requires forall k :: k in order ==> k in tasks && k in ready
    requires id in order && ready[id].Some?
    ensures Tells(Reports(node, tasks, ready, order), node, tasks[id], id, ready[id].value)
    decreases |order|
  {
    if id != order[|order| - 1] {
      assert id in order[..|order| - 1];
      ReportsTell(node, tasks, ready, order[..|order| - 1], id);
    }
  }

  /** `sent` holds one report for each polled task that has an outcome, of the kind and with the contents of that outcome. */
  ghost predicate RelaysAll(sent: seq<Mail>, node: NodeId, tasks: map<nat, JobId>, ready: map<nat, Polled>) {
    && (forall j, i: nat ::
          CountMail(sent, j, i, node) == if i in tasks && i in ready && tasks[i] == j && ready[i].Some? then 1 else 0)
    && (forall i :: i in tasks && i in ready && ready[i].Some? ==> Tells(sent, node, tasks[i], i, ready[i].value))
    && forall x :: x in sent ==> Subject(x).2 == node
  }

  lemma {:induction false} ReportsFrom(node: NodeId, tasks: map<nat, JobId>, ready: map<nat, Polled>, order: seq<nat>)
    requires forall k :: k in order ==> k in tasks && k in ready
    ensures forall x :: x in Reports(node, tasks, ready, order) ==> Subject(x).2 == node
    decreases |order|
  {
    if order != [] {
      ReportsFrom(node, tasks, ready, order[..|order| - 1]);
    }
  }

  lemma ReportsRelayAll(node: NodeId, tasks: map<nat, JobId>, ready: map<nat, Polled>, order: seq<nat>)
    requires Enumerates(order, tasks.Keys * ready.Keys)
    ensures RelaysAll(Reports(node, tasks, ready, order), node, tasks, ready)
  {
    var sent := Reports(node, tasks, ready, order);
    ReportsFrom(node, tasks, ready, order);
    forall j, i: nat
      ensures CountMail(sent, j, i, node) == if i in tasks && i in ready && tasks[i] == j && ready[i].Some? then 1 else 0
    {
      ReportsCounted(node, tasks, ready, order, j, i);
    }
    forall i | i in tasks && i in ready && ready[i].Some?
      ensures Tells(sent, node, tasks[i], i, ready[i].value)
    {
      assert i in tasks.Keys * ready.Keys;
      ReportsTell(node, tasks, ready, order, i);
    }
  }

  class WorkerNode {
    const self: NodeId
    /** The segment ids of worker processes, until one's outcome is relayed. */
    var localWorkers: set<nat>
    /** The job of each task that is polled, by segment id. */
    var pendingResults: map<nat, JobId>
    /** Assignments acknowledged, as job and segment id. */
    var acked: seq<(JobId, nat)>
    var outbox: seq<Mail>

    constructor (self: NodeId)
      ensures this.self == self && localWorkers == {} && pendingResults == map[] && acked == [] && outbox == []
    {
      this.self := self;
      localWorkers, pendingResults, acked, outbox := {}, map[], [], [];
    }

    /** A task for the same segment id, of whatever job, takes the place of an earlier one. */
    method HandleSegmentAssign(job: JobId, segment: SegmentDescriptor)
      modifies this
      ensures acked == old(acked) + [(job, segment.id)] && outbox == old(outbox)
      ensures localWorkers == old(localWorkers) + {segment.id}
      ensures pendingResults == old(pendingResults)[segment.id := job]
    {
      acked := acked + [(job, segment.id)];
      localWorkers := localWorkers + {segment.id};
      pendingResults := pendingResults[segment.id := job];
    }

    /** Relays the outcomes that are ready, and forgets their tasks and those that ended without one. */
    method PollWorkerResults(ready: map<nat, Polled>) returns (ghost order: seq<nat>)
      modifies this
      ensures Enumerates(order, old(pendingResults).Keys * ready.Keys)
      ensures pendingResults == old(pendingResults) - ready.Keys && acked == old(acked)
      ensures localWorkers == old(localWorkers) - Relayed(old(pendingResults).Keys, ready)
      ensures outbox == old(outbox) + Reports(self, old(pendingResults), ready, order)
      ensures outbox[..|old(outbox)|] == old(outbox)
      ensures RelaysAll(outbox[|old(outbox)|..], self, old(pendingResults), ready)
    {
      order := [];
      var todo, completedKeys := pendingResults.Keys, {};
      ghost var sent, before := outbox, localWorkers;
      assert sent + [] == sent;
      while todo != {}
        invariant todo <= pendingResults.Keys && pendingResults == old(pendingResults) && acked == old(acked)
        invariant completedKeys == (pendingResults.Keys - todo) * ready.Keys && Enumerates(order, completedKeys)
        invariant localWorkers == before - Relayed(pendingResults.Keys - todo, ready)
        invariant outbox == sent + Reports(self, pendingResults, ready, order)
      {
        var id :| id in todo;
        if id in ready {
          OneMoreReport(self, pendingResults, ready, order, id, sent);
          if ready[id].Some? {
            localWorkers := localWorkers - {id};
            outbox := outbox + [ReportOf(self, pendingResults[id], id, ready[id].value)];
          } else {
            assert outbox + [] == outbox;
          }
          EnumerateMore(order, completedKeys, id);
          order, completedKeys := order + [id], completedKeys + {id};
        }
        RelayedMore(pendingResults.Keys - todo, ready, id);
        assert pendingResults.Keys - (todo - {id}) == pendingResults.Keys - todo + {id};
        todo := todo - {id};
      }
      ReportsRelayAll(self, pendingResults, ready, order);
      pendingResults := pendingResults - completedKeys;
    }
  }

  /** The tasks among `ids` whose outcome is ready. */
  function Relayed(ids: set<nat>, ready: map<nat, Polled>): set<nat> {
    set id | id in ids && id in ready && ready[id].Some?
  }

  lemma RelayedMore(ids: set<nat>, ready: map<nat, Polled>, id: nat)
    ensures Relayed(ids + {id}, ready) == Relayed(ids, ready) + (if id in ready && ready[id].Some? then {id} else {})
  {
  }

  /** The tasks that the cluster has at work on a node. */
  ghost function TasksOn(c: Cluster, node: NodeId): map<nat, JobId> {
    map p | p in c.running && p.0 == node :: p.1 := c.running[p]
  }

  lemma {:induction false} RunThen(c: Cluster, steps: seq<Step>, c': Cluster, s: Step)
    requires Run(c, steps, c') && Possible(c', s)
    ensures Run(c, steps + [s], Apply(c', s))
    ensures SmoothRun(c, steps, c') && !Losing(c', s) ==> SmoothRun(c, steps + [s], Apply(c', s))
    decreases |steps|
  {
    if steps == [] {
      assert [s][1..] == [] && steps + [s] == [s];
      assert Run(Apply(c, s), [], Apply(c', s)) && SmoothRun(Apply(c, s), [], Apply(c', s));
    } else {
      RunThen(Apply(c, steps[0]), steps[1..], c', s);
      assert (steps + [s])[1..] == steps[1..] + [s];
    }
  }

  ghost function Keyed(node: NodeId, ids: seq<nat>): set<(NodeId, nat)> { set id | id in ids :: (node, id) }

  lemma KeyedOneMore(node: NodeId, ids: seq<nat>, id: nat)
    ensures Keyed(node, ids + [id]) == Keyed(node, ids) + {(node, id)}
    ensures id !in ids ==> (node, id) !in Keyed(node, ids)
  {
    assert forall x :: x in ids + [id] <==> x in ids || x == id;
  }

  /** The step of the cluster that relays a polled task. */
  function RelayStep(node: NodeId, job: JobId, id: nat, polled: Polled): Step {
    if polled.Some? then FinishWorker(node, id, job, polled.value) else VanishWorker(node, id)
  }

  lemma OneMoreRelay(c: Cluster, mid: Cluster, node: NodeId, sent: seq<Mail>, ids: seq<nat>, id: nat, polled: Polled)
    requires (node, id) in c.running && id !in ids
    requires mid == c.(net := c.net + sent, running := c.running - Keyed(node, ids))
    ensures var job := c.running[(node, id)];
            var s := RelayStep(node, job, id, polled);
            && Possible(mid, s) && (polled.Some? ==> !Losing(mid, s))
            && Apply(mid, s)
            == c.(net := c.net + (sent + (if polled.Some? then [ReportOf(node, job, id, polled.value)] else [])),
                  running := c.running - Keyed(node, ids + [id]))
  {
    KeyedOneMore(node, ids, id);
    if polled.Some? {
      Assoc(c.net, sent, [ReportOf(node, c.running[(node, id)], id, polled.value)]);
    } else {
      assert sent + [] == sent;
    }
    assert c.running - Keyed(node, ids) - {(node, id)} == c.running - Keyed(node, ids + [id]);
  }

  /** A poll is a run of the cluster, which loses no task if every task polled has an outcome. */
  lemma {:induction false} PollIsRun(c: Cluster, node: NodeId, ready: map<nat, Polled>, order: seq<nat>)
    returns (steps: seq<Step>, c': Cluster)
    requires Distinct(order) && forall id :: id in order ==> id in TasksOn(c, node) && id in ready
    ensures |steps| == |order| && Run(c, steps, c')
    ensures (forall id :: id in order ==> ready[id].Some?) ==> SmoothRun(c, steps, c')
    ensures c' == c.(net := c.net + Reports(node, TasksOn(c, node), ready, order), running := c.running - Keyed(node, order))
    decreases |order|
  {
    if order == [] {
      steps, c' := [], c;
      assert c.net + [] == c.net && c.running - {} == c.running;
    } else {
      var id, front, tasks := order[|order| - 1], order[..|order| - 1], TasksOn(c, node);
      assert order == front + [id] && id !in front && id in tasks;
      var before, mid := PollIsRun(c, node, ready, front);
      OneMoreRelay(c, mid, node, Reports(node, tasks, ready, front), front, id, ready[id]);
      var s := RelayStep(node, tasks[id], id, ready[id]);
      RunThen(c, before, mid, s);
      steps, c' := before + [s], Apply(mid, s);
    }
  }
}
