/** The table of cluster nodes and their status machine (cluster/src/node.rs). */
module Nodes {
  import opened Common
  import opened Collections
  import opened Scheduler
  import opened ScheduleCall

  /** A known node, with the time at which it was registered or last heard. */
  datatype Tracked = Tracked(info: NodeInfo, lastHeartbeat: nat)

  type Table = map<NodeId, Tracked>

  function Register(t: Table, info: NodeInfo, now: nat): Table { t[info.nodeId := Tracked(info, now)] }

  /** The status that a heartbeat leaves: a loaded node is Busy, an unloaded one no longer Busy or Dead. */
  function BeatStatus(info: NodeInfo, load: nat): NodeStatus {
    if load >= info.maxConcurrentWorkers then Busy
    else if info.status == Busy || info.status == Dead then Active
    else info.status
  }

  function Beat(t: Table, id: NodeId, load: nat, now: nat): Table {
    if id !in t then t
    else t[id := Tracked(t[id].info.(activeWorkers := load, status := BeatStatus(t[id].info, load)), now)]
  }

  /** The node has missed its deadline and was not declared dead before. */
  predicate Lapsed(t: Table, self: NodeId, timeout: nat, now: nat, id: NodeId) {
    id in t && id != self && now - t[id].lastHeartbeat > timeout && t[id].info.status != Dead
  }

  function Bury(x: Tracked): Tracked { x.(info := x.info.(status := Dead)) }

  function Checked(t: Table, self: NodeId, timeout: nat, now: nat): Table {
    map id | id in t :: if Lapsed(t, self, timeout, now, id) then Bury(t[id]) else t[id]
  }

  function DeadAt(t: Table, self: NodeId, timeout: nat, now: nat): set<NodeId> {
    set id | id in t && Lapsed(t, self, timeout, now, id)
  }

  predicate IsActive(info: NodeInfo) { info.status == Active || info.status == Busy }

  /** Entries are filed under their own id. */
  ghost predicate Filed(t: Table) { forall id :: id in t ==> t[id].info.nodeId == id }

  /** `infos` lists the Active and Busy entries, each once. */
  ghost predicate ListsActive(infos: seq<NodeInfo>, t: Table) {
    && DistinctIds(infos)
    && (forall x :: x in infos ==> x.nodeId in t && t[x.nodeId].info == x && IsActive(x))
    && (forall id :: id in t && IsActive(t[id].info) ==> t[id].info in infos)
  }

  class NodeManager {
    const selfId: NodeId
    const deadTimeout: nat
    var nodes: Table

    constructor (selfId: NodeId, deadTimeout: nat)
      ensures this.selfId == selfId && this.deadTimeout == deadTimeout && nodes == map[]
    {
      this.selfId, this.deadTimeout, nodes := selfId, deadTimeout, map[];
    }

    method RegisterNode(info: NodeInfo, now: nat)
      modifies this
      ensures nodes == Register(old(nodes), info, now)
    {
      nodes := nodes[info.nodeId := Tracked(info, now)];
    }

    method RemoveNode(id: NodeId) returns (removed: Option<NodeInfo>)
      modifies this
      ensures nodes == old(nodes) - {id}
      ensures removed == if id in old(nodes) then Some(old(nodes)[id].info) else None
    {
      removed := if id in nodes then Some(nodes[id].info) else None;
      nodes := nodes - {id};
    }

    method UpdateHeartbeat(id: NodeId, load: nat, now: nat)
      modifies this
      ensures nodes == Beat(old(nodes), id, load, now)
    {
      if id in nodes {
        var x := nodes[id];
        x := x.(lastHeartbeat := now, info := x.info.(activeWorkers := load));
        if x.info.activeWorkers >= x.info.maxConcurrentWorkers {
          x := x.(info := x.info.(status := Busy));
        } else if x.info.status == Busy || x.info.status == Dead {
          x := x.(info := x.info.(status := Active));
        }
        nodes := nodes[id := x];
      }
    }

    /** Declares dead every other node that missed its deadline, and returns those. */
    method CheckDeadNodes(now: nat) returns (dead: seq<NodeId>)
      modifies this
      ensures nodes == Checked(old(nodes), selfId, deadTimeout, now)
      ensures Enumerates(dead, DeadAt(old(nodes), selfId, deadTimeout, now))
      ensures forall id :: id in dead <==>
                id in old(nodes) && id != selfId && old(nodes)[id].info.status != Dead
                && now > old(nodes)[id].lastHeartbeat + deadTimeout
      ensures nodes.Keys == old(nodes).Keys
      ensures forall id :: id in nodes ==>
                nodes[id] == if id in dead then old(nodes)[id].(info := old(nodes)[id].info.(status := Dead)) else old(nodes)[id]
    {
      dead := [];
      var todo := nodes.Keys;
      ghost var was := nodes;
      while todo != {}
        invariant todo <= was.Keys == nodes.Keys
        invariant forall id :: id in was ==>
                    nodes[id] == if id in todo then was[id] else Checked(was, selfId, deadTimeout, now)[id]
        invariant Enumerates(dead, DeadAt(was, selfId, deadTimeout, now) - todo)
      {
        var id :| id in todo;
        todo := todo - {id};
        if id != selfId {
          var x := nodes[id];
          if now - x.lastHeartbeat > deadTimeout && x.info.status != Dead {
            nodes := nodes[id := x.(info := x.info.(status := Dead))];
            dead := dead + [id];
          }
        }
      }
      assert nodes == Checked(was, selfId, deadTimeout, now);
    }

    method ActiveNodes() returns (infos: seq<NodeInfo>)
      requires Filed(nodes)
      ensures ListsActive(infos, nodes)
      ensures forall id :: (exists x :: x in infos && x.nodeId == id)
                      <==> id in nodes && (nodes[id].info.status == Active || nodes[id].info.status == Busy)
    {
      infos := [];
      var todo := nodes.Keys;
      while todo != {}
        invariant todo <= nodes.Keys && DistinctIds(infos)
        invariant forall x :: x in infos ==> x.nodeId in nodes.Keys - todo && nodes[x.nodeId].info == x && IsActive(x)
        invariant forall id :: id in nodes.Keys - todo && IsActive(nodes[id].info) ==> nodes[id].info in infos
      {
        var id :| id in todo;
        todo := todo - {id};
        if IsActive(nodes[id].info) {
          infos := infos + [nodes[id].info];
        }
      }
    }
  }

  // ----- the status machine over runs -----

  datatype Event =
    | Registered(info: NodeInfo, now: nat)
    | Heard(id: NodeId, load: nat, now: nat)
    | Removed(id: NodeId)
    | Check(now: nat)

  function Apply(t: Table, e: Event, self: NodeId, timeout: nat): Table {
    match e
    case Registered(info, now) => Register(t, info, now)
    case Heard(id, load, now) => Beat(t, id, load, now)
    case Removed(id) => t - {id}
    case Check(now) => Checked(t, self, timeout, now)
  }

  function Run(t: Table, events: seq<Event>, self: NodeId, timeout: nat): Table
    decreases |events|
  {
    if events == [] then t else Run(Apply(t, events[0], self, timeout), events[1..], self, timeout)
  }

  /** The event shows that node `n` lives. */
  predicate SignOfLife(e: Event, n: NodeId) {
    (e.Registered? && e.info.nodeId == n) || (e.Heard? && e.id == n)
  }

  predicate Silent(t: Table, n: NodeId) { n in t ==> t[n].info.status == Dead }

  lemma {:induction false} SilentUntilHeard(t: Table, events: seq<Event>, self: NodeId, timeout: nat, n: NodeId)
    requires Silent(t, n) && forall e :: e in events ==> !SignOfLife(e, n)
    ensures Silent(Run(t, events, self, timeout), n)
    decreases |events|
  {
    if events != [] {
      assert events[0] in events;
      SilentUntilHeard(Apply(t, events[0], self, timeout), events[1..], self, timeout, n);
    }
  }

  /**
   Once a check reported a node dead, no later check reports it, and it is not among the
   active nodes, until it registers or sends a heartbeat.
   */
  lemma ReportedDeadOnce(t: Table, first: nat, events: seq<Event>, self: NodeId, timeout: nat, n: NodeId)
    requires n in DeadAt(t, self, timeout, first) && forall e :: e in events ==> !SignOfLife(e, n)
    ensures var t' := Run(Checked(t, self, timeout, first), events, self, timeout);
            && (forall now: nat :: n !in DeadAt(t', self, timeout, now))
            && (forall infos: seq<NodeInfo> :: ListsActive(infos, t') ==> forall x :: x in infos ==> x.nodeId != n)
  {
    SilentUntilHeard(Checked(t, self, timeout, first), events, self, timeout, n);
  }

  lemma {:induction false} StaleUntilHeard(t: Table, events: seq<Event>, self: NodeId, timeout: nat, n: NodeId)
    requires n in t && forall e :: e in events ==> !SignOfLife(e, n) && !(e.Removed? && e.id == n)
    ensures var t' := Run(t, events, self, timeout);
            n in t' && t'[n].lastHeartbeat == t[n].lastHeartbeat && (t'[n].info.status != Dead ==> t'[n] == t[n])
    decreases |events|
  {
    if events != [] {
      assert events[0] in events;
      StaleUntilHeard(Apply(t, events[0], self, timeout), events[1..], self, timeout, n);
    }
  }

  /**
   Detection: a node that gives no sign of life is dead in the table after any check made
   more than the timeout after it was last heard, whatever happened to other nodes.
   */
  lemma SilentNodeIsDetected(t: Table, events: seq<Event>, self: NodeId, timeout: nat, n: NodeId, now: nat)
    requires n in t && n != self && forall e :: e in events ==> !SignOfLife(e, n) && !(e.Removed? && e.id == n)
    requires now > t[n].lastHeartbeat + timeout
    ensures var t' := Checked(Run(t, events, self, timeout), self, timeout, now);
            n in t' && t'[n].info.status == Dead
  {
    StaleUntilHeard(t, events, self, timeout, n);
  }

  // ----- nodes that are heard -----

  /** A node heard within the timeout is neither reported by a check nor changed by it. */
  lemma HeardNodeUntouched(t: Table, self: NodeId, timeout: nat, now: nat, id: NodeId)
    requires id in t && now <= t[id].lastHeartbeat + timeout
    ensures id !in DeadAt(t, self, timeout, now)
    ensures id in Checked(t, self, timeout, now) && Checked(t, self, timeout, now)[id] == t[id]
  {
  }

  /** When node `n` last gave a sign of life, if it was at `last` before the events. */
  function LastHeard(events: seq<Event>, n: NodeId, last: nat): nat {
    if events == [] then last
    else LastHeard(events[1..], n, if SignOfLife(events[0], n) then events[0].now else last)
  }

  /** What does not end the life of node `n`, last heard at `last`: it stays, and no check comes too late for it. */
  predicate Spares(e: Event, n: NodeId, last: nat, timeout: nat) {
    && (e.Check? ==> e.now <= last + timeout)
    && !(e.Removed? && e.id == n)
    && (e.Registered? && e.info.nodeId == n ==> e.info.status != Dead)
  }

  /** Node `n` gives a sign of life within the timeout before every check. */
  predicate Punctual(events: seq<Event>, n: NodeId, last: nat, timeout: nat) {
    events == []
    || (Spares(events[0], n, last, timeout)
        && Punctual(events[1..], n, if SignOfLife(events[0], n) then events[0].now else last, timeout))
  }

  lemma SparedNodeLives(t: Table, e: Event, self: NodeId, timeout: nat, n: NodeId)
    requires n in t && t[n].info.status != Dead && Spares(e, n, t[n].lastHeartbeat, timeout)
    ensures n in Apply(t, e, self, timeout) && Apply(t, e, self, timeout)[n].info.status != Dead
    ensures Apply(t, e, self, timeout)[n].lastHeartbeat == if SignOfLife(e, n) then e.now else t[n].lastHeartbeat
    ensures e.Check? ==> n !in DeadAt(t, self, timeout, e.now)
  {
  }

  /** No false alarm: such a node is alive in the table after any such run. */
  lemma {:induction false} PunctualNodeLives(t: Table, events: seq<Event>, self: NodeId, timeout: nat, n: NodeId)
    requires n in t && t[n].info.status != Dead && Punctual(events, n, t[n].lastHeartbeat, timeout)
    ensures var t' := Run(t, events, self, timeout);
            n in t' && t'[n].info.status != Dead && t'[n].lastHeartbeat == LastHeard(events, n, t[n].lastHeartbeat)
    decreases |events|
  {
    if events != [] {
      SparedNodeLives(t, events[0], self, timeout, n);
      PunctualNodeLives(Apply(t, events[0], self, timeout), events[1..], self, timeout, n);
    }
  }

  /**
   A heartbeat with room for work frees a Busy node and revives a Dead one: it is listed again
   with that load, can take work, and no check within the timeout reports it. A heartbeat at
   full load makes any node Busy, listed but without room.
   */
  lemma HeartbeatRevives(t: Table, id: NodeId, load: nat, now: nat, infos: seq<NodeInfo>)
    requires Filed(t) && id in t && ListsActive(infos, Beat(t, id, load, now))
    ensures id in Beat(t, id, load, now)
    ensures var x := Beat(t, id, load, now)[id].info;
            && x.activeWorkers == load && x.maxConcurrentWorkers == t[id].info.maxConcurrentWorkers
            && (load < x.maxConcurrentWorkers && t[id].info.status !in {Joining, Draining} ==>
                  x.status == Active && x in infos && CanTake(x))
            && (load < x.maxConcurrentWorkers && t[id].info.status in {Joining, Draining} ==>
                  x.status == t[id].info.status && x !in infos)
            && (load >= x.maxConcurrentWorkers ==> x.status == Busy && x in infos && !CanTake(x))
    ensures forall self: NodeId, timeout: nat, later: nat :: later <= now + timeout ==>
              id !in DeadAt(Beat(t, id, load, now), self, timeout, later)
    ensures Beat(t, id, load, now).Keys == t.Keys && forall other :: other in t && other != id ==> Beat(t, id, load, now)[other] == t[other]
  {
  }
}
