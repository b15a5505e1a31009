/**
 Leader election on one node (cluster/src/election.rs) and the way the daemon turns its
 answers into messages (cluster/src/main.rs). The transitions are functions on an
 `Election` value; the classes perform them in place.
 */
module Election {
  import opened Common

  datatype Role = Follower | Candidate | Leader

  datatype Msg =
    | Start(candidate: NodeId, priority: nat)
    | Alive(node: NodeId)
    | Victory(master: NodeId)

  /** The upper 64 bits of the UUID; higher values win. */
  function PriorityFromId(id: NodeId): nat { id.hi }

  /** The fields of the election manager. Instants are ticks of a clock. */
  datatype Election = Election(
    id: NodeId, role: Role, leader: Option<NodeId>, startedAt: Option<nat>,
    receivedAlive: bool, aliveAt: Option<nat>)
  {
    function Priority(): nat { PriorityFromId(id) }

    function StartElection(now: nat): Election {
      this.(role := Candidate, startedAt := Some(now), receivedAlive := false, aliveAt := None, leader := None)
    }

    function StartMsg(): Msg { Start(id, Priority()) }

    /** The manager's half of receiving a Start: the new state, and whether to answer Alive. */
    function HandleStart(priority: nat, now: nat): (Election, bool) {
      if Priority() > priority then
        (if role == Follower
         then this.(role := Candidate, startedAt := Some(now), receivedAlive := false, aliveAt := None)
         else this, true)
      else
        (this.(role := Follower, startedAt := None), false)
    }

    function HandleAlive(now: nat): Election {
      this.(receivedAlive := true, aliveAt := Some(now))
    }

    function HandleVictory(master: NodeId): Election {
      this.(leader := Some(master), role := if master == id then Leader else Follower,
        startedAt := None, receivedAlive := false, aliveAt := None)
    }

    /** What a timeout check does: the new state and the message to broadcast, if any. */
    function CheckTimeout(now: nat, electionTimeout: nat, victoryTimeout: nat): (Election, Option<Msg>) {
      if role != Candidate then (this, None)
      else if receivedAlive then
        if aliveAt.Some? && aliveAt.value + victoryTimeout < now
        then (StartElection(now), Some(StartMsg())) else (this, None)
      else if startedAt.Some? && startedAt.value + electionTimeout < now then
        (this.(role := Leader, leader := Some(id), startedAt := None), Some(Victory(id)))
      else (this, None)
    }

    function ForceLeader(): Election {
      this.(role := Leader, leader := Some(id), startedAt := None, receivedAlive := false, aliveAt := None)
    }

    function Reset(): Election {
      this.(role := Follower, leader := None, startedAt := None, receivedAlive := false, aliveAt := None)
    }
  }

  function Fresh(id: NodeId): Election { Election(id, Follower, None, None, false, None) }

  /** A transport call: one peer, or all peers but possibly one. */
  datatype Send = To(peer: NodeId, msg: Msg) | Broadcast(msg: Msg, exclude: Option<NodeId>)

  datatype Reaction = Reaction(node: Election, sends: seq<Send>)

  /** Start received by the daemon: answer Alive, then re-announce victory or run ourselves. */
  function OnStart(e: Election, from: NodeId, priority: nat, now: nat): Reaction {
    var (e', alive) := e.HandleStart(priority, now);
    if !alive then Reaction(e', [])
    else if e.role == Leader then Reaction(e', [To(from, Alive(e.id)), Broadcast(Victory(e.id), None)])
    else Reaction(e'.StartElection(now), [To(from, Alive(e.id)), Broadcast(e.StartMsg(), Some(from))])
  }

  function OnMessage(e: Election, from: NodeId, msg: Msg, now: nat): Reaction {
    match msg
    case Start(_, priority) => OnStart(e, from, priority, now)
    case Alive(_) => Reaction(e.HandleAlive(now), [])
    case Victory(master) => Reaction(e.HandleVictory(master), [])
  }

  /** A peer left or was declared dead: run an election if it was the known master. */
  function OnNodeGone(e: Election, gone: NodeId, now: nat): Reaction {
    if e.leader == Some(gone)
    then Reaction(e.Reset().StartElection(now), [Broadcast(e.StartMsg(), None)])
    else Reaction(e, [])
  }

  /** Several peers were declared dead, one after the other. */
  function OnNodesGone(e: Election, gone: seq<NodeId>, now: nat): Reaction {
    if gone == [] then Reaction(e, [])
    else
      var before := OnNodesGone(e, gone[..|gone| - 1], now);
      var r := OnNodeGone(before.node, gone[|gone| - 1], now);
      Reaction(r.node, before.sends + r.sends)
  }

  /** Losing peers never makes a leader of a node, nor unseats one that names itself. */
  lemma {:induction false} GoneKeepsRole(e: Election, gone: seq<NodeId>, now: nat)
    ensures e.role != Leader ==> OnNodesGone(e, gone, now).node.role != Leader
    ensures e.leader == Some(e.id) && e.id !in gone ==> OnNodesGone(e, gone, now) == Reaction(e, [])
    decreases |gone|
  {
    if gone != [] {
      GoneKeepsRole(e, gone[..|gone| - 1], now);
      assert gone[|gone| - 1] in gone;
    }
  }

  /** Losing several peers is losing the known leader or nothing; it makes a node run once, loudly. */
  lemma {:induction false} GoneMakesRun(e: Election, gone: seq<NodeId>, now: nat)
    ensures OnNodesGone(e, gone, now) ==
            if e.leader.Some? && e.leader.value in gone
            then Reaction(Election(e.id, Candidate, None, Some(now), false, None), [Broadcast(Start(e.id, e.id.hi), None)])
            else Reaction(e, [])
    decreases |gone|
  {
    if gone != [] {
      var front, last := gone[..|gone| - 1], gone[|gone| - 1];
      GoneMakesRun(e, front, now);
      assert gone == front + [last];
    }
  }

  function OnCheckElection(e: Election, now: nat, electionTimeout: nat, victoryTimeout: nat): Reaction {
    var (e', msg) := e.CheckTimeout(now, electionTimeout, victoryTimeout);
    Reaction(e', if msg.Some? then [Broadcast(msg.value, None)] else [])
  }

  /** Joining an existing cluster: start an election at once. */
  function OnJoin(e: Election, now: nat): Reaction {
    Reaction(e.StartElection(now), [Broadcast(e.StartMsg(), None)])
  }

  class ElectionManager {
    const nodeId: NodeId
    const priority: nat
    const electionTimeout: nat
    const victoryTimeout: nat
    var role: Role
    var currentLeader: Option<NodeId>
    var electionStartedAt: Option<nat>
    var receivedAlive: bool
    var aliveReceivedAt: Option<nat>

    ghost predicate Valid() reads this { priority == PriorityFromId(nodeId) }

    ghost function View(): Election
      reads this
    {
      Election(nodeId, role, currentLeader, electionStartedAt, receivedAlive, aliveReceivedAt)
    }

    constructor (nodeId: NodeId, electionTimeout: nat, victoryTimeout: nat)
      ensures Valid() && View() == Fresh(nodeId)
      ensures this.electionTimeout == electionTimeout && this.victoryTimeout == victoryTimeout
    {
      this.nodeId, this.priority := nodeId, PriorityFromId(nodeId);
      this.electionTimeout, this.victoryTimeout := electionTimeout, victoryTimeout;
      role, currentLeader, electionStartedAt := Follower, None, None;
      receivedAlive, aliveReceivedAt := false, None;
    }

    method StartElection(now: nat) returns (msg: Msg)
      requires Valid()
      modifies this
      ensures Valid() && View() == old(View()).StartElection(now) && msg == View().StartMsg()
    {
      role := Candidate;
      electionStartedAt := Some(now);
      receivedAlive := false;
      aliveReceivedAt := None;
      currentLeader := None;
      msg := Start(nodeId, priority);
    }

    method HandleElectionStart(candidatePriority: nat, now: nat) returns (reply: Option<Msg>)
      requires Valid()
      modifies this
      ensures Valid() && View() == old(View()).HandleStart(candidatePriority, now).0
      ensures reply == if old(View()).HandleStart(candidatePriority, now).1 then Some(Alive(nodeId)) else None
    {
      if priority > candidatePriority {
        if role != Leader && role != Candidate {
          role := Candidate;
          electionStartedAt := Some(now);
          receivedAlive := false;
          aliveReceivedAt := None;
        }
        reply := Some(Alive(nodeId));
      } else {
        role := Follower;
        electionStartedAt := None;
        reply := None;
      }
    }

    method HandleAlive(now: nat)
      requires Valid()
      modifies this
      ensures Valid() && View() == old(View()).HandleAlive(now)
    {
      receivedAlive := true;
      aliveReceivedAt := Some(now);
    }

    method HandleVictory(master: NodeId)
      requires Valid()
      modifies this
      ensures Valid() && View() == old(View()).HandleVictory(master)
    {
      currentLeader := Some(master);
      role := if master == nodeId then Leader else Follower;
      electionStartedAt := None;
      receivedAlive := false;
      aliveReceivedAt := None;
    }

    method CheckTimeout(now: nat) returns (msg: Option<Msg>)
      requires Valid()
      modifies this
      ensures Valid()
      ensures (View(), msg) == old(View()).CheckTimeout(now, electionTimeout, victoryTimeout)
    {
      msg := None;
      if role != Candidate {
        return;
      }
      if receivedAlive {
        if aliveReceivedAt.Some? && now > aliveReceivedAt.value + victoryTimeout {
          var start := StartElection(now);
          msg := Some(start);
        }
      } else if electionStartedAt.Some? && now > electionStartedAt.value + electionTimeout {
        role := Leader;
        currentLeader := Some(nodeId);
        electionStartedAt := None;
        msg := Some(Victory(nodeId));
      }
    }

    method ForceLeader()
      requires Valid()
      modifies this
      ensures Valid() && View() == old(View()).ForceLeader()
    {
      role := Leader;
      currentLeader := Some(nodeId);
      electionStartedAt := None;
      receivedAlive := false;
      aliveReceivedAt := None;
    }

    method Reset()
      requires Valid()
      modifies this
      ensures Valid() && View() == old(View()).Reset()
    {
      role := Follower;
      currentLeader := None;
      electionStartedAt := None;
      receivedAlive := false;
      aliveReceivedAt := None;
    }
  }

  /** The daemon's election handlers; `outbox` collects its transport calls in order. */
  class ElectionApp {
    const election: ElectionManager
    var outbox: seq<Send>

    ghost predicate Valid() reads this, election { election.Valid() }

    constructor (election: ElectionManager)
      requires election.Valid()
      ensures Valid() && this.election == election && outbox == []
    {
      this.election := election;
      outbox := [];
    }

    /** The handler took `e` to the node state and the transport calls of reaction `r`. */
    twostate predicate Did(r: Reaction)
      reads this, election
    {
      election.View() == r.node && outbox == old(outbox) + r.sends
    }

    method HandleElectionStart(peer: NodeId, priority: nat, now: nat)
      requires Valid()
      modifies this, election
      ensures Valid() && Did(OnStart(old(election.View()), peer, priority, now))
    {
      var wasLeader := election.role == Leader;
      var reply := election.HandleElectionStart(priority, now);
      if reply.Some? {
        outbox := outbox + [To(peer, reply.value)];
        if wasLeader {
          outbox := outbox + [Broadcast(Victory(election.nodeId), None)];
        } else {
          var start := election.StartElection(now);
          outbox := outbox + [Broadcast(start, Some(peer))];
        }
      }
    }

    method HandleNodeGone(gone: NodeId, now: nat)
      requires Valid()
      modifies this, election
      ensures Valid() && Did(OnNodeGone(old(election.View()), gone, now))
      ensures if old(election.currentLeader) == Some(gone) then
                && election.role == Candidate && election.electionStartedAt == Some(now)
                && election.currentLeader == None && !election.receivedAlive && election.aliveReceivedAt == None
                && outbox == old(outbox) + [Broadcast(Start(election.nodeId, election.nodeId.hi), None)]
              else election.View() == old(election.View()) && outbox == old(outbox)
    {
      if election.currentLeader == Some(gone) {
        election.Reset();
        var start := election.StartElection(now);
        outbox := outbox + [Broadcast(start, None)];
      }
    }

    method CheckElection(now: nat)
      requires Valid()
      modifies this, election
      ensures Valid()
      ensures Did(OnCheckElection(old(election.View()), now, election.electionTimeout, election.victoryTimeout))
    {
      var msg := election.CheckTimeout(now);
      if msg.Some? {
        outbox := outbox + [Broadcast(msg.value, None)];
      }
    }

    method Join(now: nat)
      requires Valid()
      modifies this, election
      ensures Valid() && Did(OnJoin(old(election.View()), now))
    {
      var start := election.StartElection(now);
      outbox := outbox + [Broadcast(start, None)];
    }
  }
}
