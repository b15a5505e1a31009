# Verification of the distributed transcoder

This project models the parts of the transcoder whose correctness rests on protocol,
queue, index or time-stamp logic, and proves what they are for:

- **Leader election** (`Election*.dfy`). The per-node manager and the daemon's handlers
  are classes proved equal to transition functions; `ElectionProtocol` runs those
  functions on any number of nodes with a multiset of packets in flight, crashes,
  suspicions, late joins and any delivery order. Results: two live nodes never lead at
  once; with a fresh start and no crash all nodes end up following the highest one, and
  leaders stay exactly if no two nodes tie at the top (`ElectionTies`); the message
  cascade terminates; and the synchrony assumption behind the election timeout
  is itself derived from a bound on message delay (`ElectionTiming`). `ElectionLimits`
  has a concrete run that meets every condition, and two that show what fails without
  them: two leaders, and an unseated leader. `ElectionSteps` says in fields and packets what
  each event does, and `ElectionFailover` that after a leader's crash the highest survivor
  comes to lead and is followed, for any number of crashes in a row.
- **Segment scheduling** (`Scheduler`, `ScheduleCall`, `Master`, `Worker`, `Nodes`). The
  scheduler, the master's and worker's event handlers and the node table are classes
  proved against functions. One scheduling call is shown to be work-conserving, within
  capacity and ordered, whatever the order in which the job table is walked.
- **Whole runs of the cluster**. `Cluster` proves exact bookkeeping across master,
  network and workers, and `ClusterProgress` that the cluster comes to rest between ticks
  and that ticks bring every job to its end; `Displacement` shows how a task gets lost
  (two jobs' segments with the same id on one worker). `SegmentRuns`, `LateReports` and
  `Assembly` cover stale, repeated and reordered reports; `Stranding` covers node death, and
  that a node which is heard in time loses nothing. `Outcomes` relates the books to what
  workers really ended with, up to the announced end of a job.
- **Segmenting a video** (`Segmenter`, `SegmentLaws`, `Playlist`). The cutting loop
  refines a recursive specification by nearest keyframes; segments tile the video, are
  bounded in length, conserve scene changes, complexity and duration, and the playlist
  meets section 4.3.3.1 of RFC 8216.
- **Media planning and copying** (`Gops`, `CopyPlan`, `FileOrder`, `Rebase`). The two
  passes over packets agree, recommendations and plans are consistent, file order is
  segment order up to a stated size, and re-based streams stay in sync.
- **Pool resizing** (`PoolResize`). The coalescing loop of the web server as a state
  machine over all interleavings.

Conventions of the model: instants are ticks of one clock, `f32`/`f64` are reals, UUIDs
are pairs of numbers, a hash table is walked in an arbitrary order that a method returns
as a ghost result, and a transport address is identified with the node behind it.
`Option` replaces a failing operation's missing result and `Result` an error return.

Three points where the code does something else than its comments or callers expect, each
with the exact condition and an input on which it happens:

- One frame is in no segment if and only if the last keyframe begins a segment and is the
  last frame (`SegmentLaws.LastSegmentEnds`, `SegmentLaws.TailIsLost`).
- The counting test for the end of a job errs if and only if ids that are both completed and
  failed carry the count over the total while some id has no outcome; without a report that
  contradicts an earlier one it never errs (`SegmentRuns.FinishedMeansSettled`,
  `LateReports.FinishedTooEarly`).
- A worker's task is lost for good if and only if a segment with the same id is started on
  that worker, or the task ends without an outcome (`Cluster.SettledUnlessLosing`,
  `Cluster.LostNeverEnds`, `Displacement.TwoJobsCollide`).

## Model

| member | source | states |
|---|---|---|
| Election.ElectionManager.constructor | cluster/src/election.rs:59-88 | a new manager follows nobody, with the priority taken from its id |
| Election.ElectionManager.StartElection | cluster/src/election.rs:111-132 | the whole new state of a fresh candidate, and the Start it sends |
| Election.ElectionManager.HandleElectionStart | cluster/src/election.rs:134-176 | answers Alive to exactly the lower-ranked candidates; otherwise steps down silently and keeps the leader it knew |
| Election.ElectionManager.HandleAlive | cluster/src/election.rs:179-187 | remembers that a higher node is alive, and since when |
| Election.ElectionManager.HandleVictory | cluster/src/election.rs:190-206 | adopts the announced master, leading only if it is the node itself |
| Election.ElectionManager.CheckTimeout | cluster/src/election.rs:209-250 | an unanswered candidate wins after the election timeout, an answered one restarts after the victory timeout, anything else is unchanged |
| Election.ElectionManager.ForceLeader | cluster/src/election.rs:253-260 | the bootstrapped leader names itself |
| Election.ElectionManager.Reset | cluster/src/election.rs:263-270 | all election state is cleared |
| Election.ElectionApp.HandleElectionStart | cluster/src/main.rs:363-390 | the sends, in order: Alive to the peer, then a victory broadcast from a leader or a Start broadcast excluding the peer |
| Election.ElectionApp.HandleNodeGone | cluster/src/main.rs:1048-1055 | losing the known leader makes the node a candidate since now that names nobody, with its Start broadcast; any other loss changes nothing |
| Election.ElectionApp.CheckElection | cluster/src/main.rs:1083-1087 | whatever the timeout check announces is broadcast |
| Election.ElectionApp.Join | cluster/src/main.rs:1825-1832 | joining a cluster starts an election |
| Election.GoneKeepsRole | cluster/src/main.rs:1073-1079 | losing peers makes no leader, and leaves one that names itself unmoved and silent |
| Election.GoneMakesRun | cluster/src/main.rs:1073-1079 | losing several peers makes a node run once, with one Start broadcast, if its leader is among them, and else changes nothing |
| ElectionProtocol.VictoryUnchallenged | cluster/src/election.rs:227-247 | a node whose round trip drained declares victory only if no higher live node exists |
| ElectionProtocol.NewLeader | cluster/src/election.rs:190-247 | a node that starts to lead in a step declared victory itself |
| ElectionProtocol.SilentCandidateKept | cluster/src/election.rs:111-250 | a candidate without an Alive has, for every live higher node, its Start or that node's Alive in flight |
| ElectionProtocol.ChallengeKept | cluster/src/election.rs:134-176 | whoever runs against a lower or equal leader has a Start in flight to it |
| ElectionProtocol.EqualRivalsKept | cluster/src/election.rs:134-176 | of two equal candidates one has a Start in flight to the other |
| ElectionProtocol.InvKept | cluster/src/main.rs:363-405 | every protocol step keeps the whole invariant |
| ElectionProtocol.OneLeader | cluster/src/election.rs:111-270 | in every run with drained-round-trip timeouts two live nodes never lead at once, through crashes, suspicions, joins and any message order, even with equal priorities or a low bootstrapped leader |
| ElectionProtocol.LeaderIsHighest | cluster/src/election.rs:111-270 | a live leader outranks every live node, unless it was bootstrapped over a higher one |
| ElectionSteps.LossOfLeader | cluster/src/main.rs:1048-1055 | the loss of a node makes exactly its followers run: candidate since now, no leader, no Alive, a Start in flight to everybody; to any other node nothing happens |
| ElectionSteps.JoiningRuns | cluster/src/main.rs:1825-1832 | whoever joins runs, with a Start in flight to everybody |
| ElectionSteps.TimeoutCheck | cluster/src/election.rs:209-250 | an unanswered candidate past its timeout leads with a Victory in flight to everybody; an answered one past its own runs again; else nothing happens |
| ElectionSteps.StartHeard | cluster/src/main.rs:363-390 | exactly higher nodes answer Alive, and then a leader announces itself to everybody and any other runs with a Start to everybody but the candidate; the rest step down in silence |
| ElectionSteps.AnswerHeard | cluster/src/election.rs:179-206 | an Alive holds the candidate back, a Victory makes its sender the leader, and neither is answered |
| ElectionAgreement.AgreeInvKept | cluster/src/main.rs:363-405 | the agreement invariant about the live nodes is kept by every step without a crash |
| ElectionAgreement.Agreement | cluster/src/election.rs:134-250 | from a fresh start only the highest node ever leads, and then every other node names it, or has its Victory in flight, or has its own Start in flight to it |
| ElectionAgreement.LeaderIsStable | cluster/src/election.rs:134-250 | once a node leads it never steps down |
| ElectionAgreement.QuiescentAgreement | cluster/src/election.rs:134-250 | with a leader and nothing in flight all nodes agree on the highest one |
| ElectionCascade.DeliveryDecreases | cluster/src/main.rs:363-405 | each delivery lowers a rank-weighted count of the packets in flight |
| ElectionCascade.CascadeTerminates | cluster/src/main.rs:363-405 | no run of deliveries is longer than that count |
| ElectionCascade.DeliveryPossible | cluster/src/main.rs:363-405 | while something is in flight a delivery can happen |
| ElectionCascade.TopIsReady | cluster/src/election.rs:209-250 | once messages drained and somebody runs, the highest node leads or may win as soon as its timeout expires |
| ElectionCascade.Convergence | cluster/src/election.rs:209-250 | after the highest node's timeout fires, boundedly many deliveries make every node follow it |
| ElectionFailover.ElectionSettles | cluster/src/election.rs:111-250 | a crash-free election with a leader and nothing in flight is settled: all follow the highest node |
| ElectionFailover.HighestSurvivorRuns | cluster/src/main.rs:1030-1081 | after the leader of a settled world crashed and one follower noticed, only the highest survivor can lead; with nothing in flight it is followed by all, or it runs and wins as soon as its timeout expires |
| ElectionFailover.Failover | cluster/src/main.rs:1030-1081 | after that victory boundedly many deliveries settle the survivors under the highest of them, so that leaders may crash one after the other |
| ElectionTiming.TimeoutDrains | cluster/src/election.rs:227-247 | with every message delivered within a delay of half the election timeout, a candidate's round trip has drained when its timeout fires |
| ElectionTiming.TimedRunIsRun | cluster/src/main.rs:110-111 | a run with bounded delays is a run of the protocol with drained timeouts |
| ElectionTiming.TimelyOneLeader | cluster/src/main.rs:110-111 | bounded delay alone gives at most one live leader |
| ElectionTiming.TimelyAgreement | cluster/src/main.rs:110-111 | bounded delay alone gives agreement in crash-free runs |
| ElectionLimits.TwoNodesConverge | cluster/src/election.rs:111-250 | a concrete election that meets all conditions of convergence and ends with both nodes following the higher one |
| ElectionLimits.UndrainedTimeoutsSplit | cluster/src/election.rs:227-247 | a concrete run with two live leaders when a timeout fires before its round trip drained |
| ElectionLimits.EqualPriorityUnseatsLeader | cluster/src/election.rs:142-173 | with equal priorities a leader is unseated by a rival's Start and still names itself |
| ElectionTies.CanLead | cluster/src/election.rs:134-250 | in a fresh world of any size a node that nobody outranks can come to lead, with everybody else untouched |
| ElectionTies.TieUnseats | cluster/src/election.rs:142-173 | with a tie at the top, in a world of any size, some crash-free run unseats a leader |
| ElectionTies.StableIffUntied | cluster/src/election.rs:134-250 | leaders stay in all crash-free runs from a fresh start if and only if no two nodes tie at the top |
| Collections.SortCorrect | cluster/src/scheduler.rs:63-67 | the sort used throughout is a sorted permutation |
| Scheduler.Scheduler.AddJob | cluster/src/scheduler.rs:61-83 | the job is queued, replacing any earlier one with that id |
| Scheduler.Scheduler.Schedule | cluster/src/scheduler.rs:92-180 | the loop over jobs, queues and node slots equals handing out the ranked supply of slots, for some order of the job table |
| Scheduler.DrainQueue | cluster/src/scheduler.rs:136-173 | one job's turn takes the front of the slot supply and leaves the rest for the next job |
| Scheduler.TakeSlot | cluster/src/scheduler.rs:146-169 | finding the first node with slots left uses up exactly the head of the slot supply |
| Scheduler.Scheduler.MarkComplete | cluster/src/scheduler.rs:183-196 | the whole job table after a completion |
| Scheduler.Scheduler.MarkFailed | cluster/src/scheduler.rs:199-205 | the whole job table after a failure |
| Scheduler.Scheduler.RequeueSegment | cluster/src/scheduler.rs:263-271 | the whole job table after a requeue |
| Scheduler.ReassignJob | cluster/src/scheduler.rs:217-239 | exactly the segments assigned to the node leave the table and join the queue's end, each once |
| Scheduler.Scheduler.ReassignFromNode | cluster/src/scheduler.rs:213-260 | the same for every job, and the count returned is the number of segments moved over all jobs |
| ScheduleCall.CallHandsOut | cluster/src/scheduler.rs:132-177 | every job loses a prefix of its queue, exactly what is assigned to it, and nothing else of it changes |
| ScheduleCall.CallIsWorkConserving | cluster/src/scheduler.rs:92-180 | a call returns min(total pending, sum over Active nodes of what activeWorkers leaves of maxConcurrentWorkers) assignments, whatever the job order, and each queue keeps its suffix in order |
| ScheduleCall.CallRespectsNodes | cluster/src/scheduler.rs:92-180 | all assignments go to Active nodes; those a node gets plus its activeWorkers are at most its maxConcurrentWorkers; free workers x cores never increase along the result |
| ScheduleCall.HardestFirst | cluster/src/scheduler.rs:86-91 | from a sorted queue the assigned complexities never increase and dominate what is left |
| ScheduleCall.NewJobQueue | cluster/src/scheduler.rs:61-67 | a new queue holds the job's segments from the most to the least complex, equally complex ones in their order, and nothing is assigned or has an outcome |
| ScheduleCall.ReturnedWaits | cluster/src/scheduler.rs:263-271 | a requeued segment is handed out only after all that were queued before it |
| ScheduleCall.DeadNodeEmptied | cluster/src/scheduler.rs:213-260 | a dead node's segments join the queue's end as empty placeholders, each once; every other assignment and every outcome stays |
| Master.Master.HandleJobSubmit | cluster/src/main.rs:468-551 | refused with 403 by a non-master and with 500 if cutting failed, changing nothing; else context and queue are set up together and the segment count is replied |
| Master.Master.Tick | cluster/src/main.rs:557-646 | every assignment of a call is sent or, if the send fails, requeued; those of ended jobs are skipped |
| Master.DispatchTells | cluster/src/main.rs:583-646 | exactly the assignments of open jobs whose peer is reached are sent, as they are; those of open jobs that are not rejoin the queue; a job that has ended is left alone |
| Master.Master.CheckCompletion | cluster/src/main.rs:839-912 | exactly one announcement per check, and the context is dropped exactly at an ending one; which announcement it is, in plain terms, is Assembly.ReportAnnounces |
| Master.Master.HandleSegmentComplete | cluster/src/main.rs:785-815 | the state after a completion report, with its URI recorded only if it is in the object store; Assembly.ReportAnnounces says what that state is |
| Master.Master.HandleSegmentFailed | cluster/src/main.rs:817-836 | the state after a failure report |
| Worker.WorkerNode.HandleSegmentAssign | cluster/src/main.rs:652-722 | the assignment is acknowledged, and its task filed under the segment id alone, replacing an earlier one |
| Worker.WorkerNode.PollWorkerResults | cluster/src/main.rs:725-779 | each encoded task is reported once as complete with its worker, frames, bytes and URL, each failed one once with its error, a task whose channel closed not at all; exactly the polled tasks are forgotten |
| Worker.ReportsRelayAll | cluster/src/main.rs:725-779 | the reports of a poll are one for each task with an outcome, of that outcome's kind and contents, and no other |
| Worker.PollIsRun | cluster/src/main.rs:725-779 | a poll is exactly one step of the cluster per polled task, which carries that task's outcome, and loses none if every one has an outcome |
| Placement.FourCounts | cluster/src/scheduler.rs:274-286 | while each segment is in one place the four counts sum to the total, and a job is finished exactly when nothing is queued or assigned |
| Placement.RequeuePlaced | cluster/src/scheduler.rs:263-271 | a failed send keeps each segment in one place |
| Placement.FinishedCompletely | cluster/src/scheduler.rs:281-302 | a cardinality argument: finished without failures means every id is complete |
| Cluster.TickBooks | cluster/src/main.rs:557-646 | a tick puts on the books exactly what it puts on the wire |
| Cluster.SlackConserved | cluster/src/main.rs:557-912 | assignments on the books minus those in flight, at work or reported never change, except that a lost task adds one to its own |
| Cluster.InvKept | cluster/src/main.rs:557-912 | every step of master, network and workers keeps the bookkeeping invariant |
| Cluster.BooksAreExact | cluster/src/main.rs:785-912 | in every run each report concerns a segment assigned to its sender, the counts add up, finished means idle, and a job with segments ends exactly once, one without never |
| Cluster.SettledUnlessLosing | cluster/src/main.rs:677-775 | a step keeps every assigned segment accounted for if and only if it neither starts a segment id that the worker already runs nor drops a task without an outcome |
| Cluster.ExactlyOnePlace | cluster/src/scheduler.rs:61-286 | without lost tasks each segment is queued, completed, failed, or assigned with exactly one of assignment in flight, task at work, report in flight |
| Cluster.LostNeverEnds | cluster/src/main.rs:147-150 | a lost task stays assigned for ever and its job's end is never announced |
| Displacement.TwoJobsCollide | cluster/src/main.rs:677-721 | a concrete run of two one-segment jobs reaches a step that loses a task |
| ClusterProgress.WorkDecreases | cluster/src/main.rs:652-836 | every step other than a submission or a tick leaves less to do |
| ClusterProgress.DrainsInTime | cluster/src/main.rs:652-836 | between ticks no run is longer than the work in flight and on workers |
| ClusterProgress.RestOrStep | cluster/src/main.rs:652-836 | only a cluster at rest has nothing but ticks and submissions left to do |
| ClusterProgress.RestIsClean | cluster/src/scheduler.rs:274-286 | at rest, no task lost, nothing is assigned and a job is finished exactly when its queue is empty |
| ClusterProgress.TickShortens | cluster/src/main.rs:557-646 | a tick whose sends succeed shortens the queues by min(total pending, free slots) |
| ClusterProgress.RoundProgress | cluster/src/main.rs:557-836 | a tick and what follows it until rest moves that many segments out of the queues for good |
| ClusterProgress.EveryJobEnds | cluster/src/main.rs:839-912 | at rest with empty queues, no task lost, every job with segments has ended, once |
| ClusterProgress.RoundsEndAll | cluster/src/main.rs:557-912 | after at least as many rounds, each with a free slot and no task lost, as segments were queued every job with segments has ended, once |
| Outcomes.BooksAreTrue | cluster/src/main.rs:677-836 | in every run a segment is completed only if a worker encoded it, with that result, and failed only if a worker ended with that error; what is queued or on its way to a worker is a segment submitted for that job |
| Outcomes.OutcomesKept | cluster/src/main.rs:725-836 | in every run what a worker ended with is in the tables unchanged or on its way to the master |
| Outcomes.AnnouncedTruth | cluster/src/main.rs:839-912 | in every run a job is announced as failed if and only if a segment failed, with the number of those, and then a worker did fail on one; otherwise a worker encoded each of its segments |
| SegmentRuns.OpTracks | cluster/src/scheduler.rs:61-271 | each scheduler operation keeps the set of known ids, adding only an id it names |
| SegmentRuns.NothingLost | cluster/src/scheduler.rs:61-271 | after any operations, stale and repeated reports included, the known ids are the original ones and those named |
| SegmentRuns.SubmittedNeverLost | cluster/src/scheduler.rs:61-83 | every submitted id stays queued, assigned, completed or failed |
| SegmentRuns.SuccessIsSound | cluster/src/scheduler.rs:281-302 | finished without failures means exactly the submitted ids are complete, under any order of operations |
| SegmentRuns.CountingTestExact | cluster/src/scheduler.rs:281-286 | the counting test is exact if and only if ids with two outcomes do not carry the count over the total while an id has none; never so while completed and failed are disjoint |
| SegmentRuns.ApartUnlessContradicted | cluster/src/scheduler.rs:183-205 | completed and failed stay disjoint if and only if no report names an id already in the other table |
| SegmentRuns.FinishedMeansSettled | cluster/src/scheduler.rs:281-286 | the same over any operations from a submission on; and without contradicting reports a job is finished exactly when each of its ids has an outcome |
| LateReports.FinishedTooEarly | cluster/src/scheduler.rs:183-260 | a concrete history that overcounts: a late completion after a reassignment makes a job count as finished with a segment still queued |
| Assembly.VerdictIsSound | cluster/src/main.rs:860-912 | success is announced only for complete jobs, and assembly only of outputs 0 to total-1 |
| Assembly.InvKept | cluster/src/main.rs:557-912 | output URIs stay within the completed ids under any reports |
| Assembly.AssemblyInOrder | cluster/src/main.rs:1175-1185 | however the URI table is walked, the list is 0, 1, .. n-1 |
| Assembly.KnownKept | cluster/src/main.rs:509-912 | totals and outputs on the books and in announcements are those that were submitted and reported |
| Assembly.AssemblyIsWhole | cluster/src/main.rs:878-905 | in any run, when assembly starts the sorted list is exactly ids 0 to total-1 of a submission of that job, each once, with the output reported for it |
| Assembly.SuccessOnlyWhenComplete | cluster/src/main.rs:839-912 | a report announces one event; a success only with all segments complete, an assembly only of the outputs of all of them |
| Assembly.ReportAnnounces | cluster/src/main.rs:785-912 | in any run a report books its outcome and announces the progress while outcomes are missing; then a failure if and only if a segment failed; else the assembly if and only if there is a store and ids 0 to total-1 all have an output recorded in the open context, else the completion |
| Assembly.StoredJobIsAssembled | cluster/src/main.rs:873-901 | when every completion put its output in the store, an open job that finishes without failures is assembled |
| Nodes.NodeManager.RegisterNode | cluster/src/node.rs:79-95 | the entry is replaced and its clock restarted |
| Nodes.NodeManager.RemoveNode | cluster/src/node.rs:98-103 | the entry is gone and returned if it existed |
| Nodes.NodeManager.UpdateHeartbeat | cluster/src/node.rs:106-126 | load decides Busy, and a heartbeat revives a Busy or Dead node but not a Draining one |
| Nodes.NodeManager.CheckDeadNodes | cluster/src/node.rs:132-157 | exactly the nodes other than itself that are not dead and were last heard longer ago than the timeout are reported, each once, and marked dead; every other entry is unchanged |
| Nodes.NodeManager.ActiveNodes | cluster/src/node.rs:181-196 | exactly the Active and Busy entries, each once |
| Nodes.ReportedDeadOnce | cluster/src/node.rs:106-157 | a reported node is not reported again and not active until it registers or is heard |
| Nodes.SilentNodeIsDetected | cluster/src/node.rs:132-157 | a silent node is dead in the table after any check past its timeout |
| Nodes.HeardNodeUntouched | cluster/src/node.rs:132-157 | a node heard within the timeout is neither reported by a check nor changed by it |
| Nodes.PunctualNodeLives | cluster/src/node.rs:106-157 | no false alarm: a node heard within the timeout before every check is alive after any run |
| Nodes.HeartbeatRevives | cluster/src/node.rs:106-126 | a heartbeat with room frees a Busy node and revives a Dead one: listed, able to take work, and safe from checks for the timeout; at full load any node becomes Busy |
| Stranding.MasterNode.LoseNode | cluster/src/main.rs:1062-1079 | a master requeues all segments of a lost node, others none; if it was the known leader the node runs with its Start broadcast, else its election is as before |
| Stranding.MasterNode.CheckHealth | cluster/src/main.rs:1058-1081 | each lapsed node is declared dead and, by a master, emptied; if the known leader is among them the node runs with one Start broadcast, else its election is as before |
| Stranding.MasterNode.HandleNodeLeave | cluster/src/main.rs:1030-1056 | a departing node is forgotten and, by a master, emptied; if it was the known leader the node runs with its Start broadcast, else its election is as before |
| Stranding.MasterNode.RunScheduler | cluster/src/main.rs:557-579 | a master's tick runs on exactly the active nodes that can be reached; any other node's does nothing |
| Stranding.MannedKept | cluster/src/main.rs:557-1081 | every step keeps assigned segments on registered, living nodes |
| Stranding.NoStrandedAssignment | cluster/src/main.rs:557-1081 | in every run each assigned segment's node is registered and not dead |
| Stranding.DeadNodeHoldsNothing | cluster/src/main.rs:1058-1072 | from its death until it is heard again a node holds no segment |
| Stranding.SilentNodeReleased | cluster/src/main.rs:1058-1072 | the first health tick past a silent node's timeout takes every segment off it |
| Stranding.HeardNodeKeepsWork | cluster/src/main.rs:1058-1081 | in every run a node heard within the timeout before every health tick is never declared dead, and no health tick takes a segment off it |
| Stranding.GossipStrands | cluster/src/main.rs:343-347 | gossip strands segments if and only if it installs a dead entry for a node that has some |
| Stranding.StrandedForGood | cluster/src/node.rs:132-157 | a segment so stranded stays, whatever health ticks follow, until its node is heard of or leaves, it is reported, or its job is submitted anew |
| Segmenter.BinarySearch | coordinator/src/segmenter.rs:181-183 | the position of a value, or where it would be inserted |
| Segmenter.RoundToU64 | coordinator/src/segmenter.rs:33 | the target in frames is the nearest integer, halves upward, and zero for a negative product |
| Segmenter.FindNearestKeyframe | coordinator/src/segmenter.rs:181-201 | the leftmost keyframe nearest to the target |
| Segmenter.NextKeyframe | coordinator/src/segmenter.rs:66-84 | the nearest keyframe strictly after the start, also when the nearest of all is not |
| Segmenter.StartsLinked | coordinator/src/segmenter.rs:42-135 | the recursive specification links each start to the nearest later keyframe |
| Segmenter.CutLoop | coordinator/src/segmenter.rs:42-135 | the loop terminates and its four exits together yield one segment per start, less a dropped tail |
| Segmenter.CreateSegments | coordinator/src/segmenter.rs:22-136 | the three errors in their order, else the specified segments |
| SegmentLaws.SegmentsTile | coordinator/src/segmenter.rs:22-136 | ids 0 to n-1, each start a keyframe with that keyframe's timestamp, and contiguous frames and timestamps from the first keyframe |
| SegmentLaws.BoundariesAreNearest | coordinator/src/segmenter.rs:66-112 | between each inner boundary and as far on the other side of start + target lies no later keyframe, and of two as near the earlier is taken |
| SegmentLaws.LastSegmentEnds | coordinator/src/segmenter.rs:115-132 | the last segment ends with the video if and only if the last keyframe is not a start on the last frame; otherwise one frame is in no segment |
| SegmentLaws.TailSafe | coordinator/src/segmenter.rs:115-132 | a check before the call: if the last frame is no keyframe, no tail is lost |
| SegmentLaws.TailIsLost | coordinator/src/segmenter.rs:115-132 | a concrete video of eleven frames whose only segment ends one frame early |
| SegmentLaws.LengthBound | coordinator/src/segmenter.rs:42-201 | with gaps of at most G every segment spans at most max(G, T + G/2) frames |
| SegmentLaws.ChangesJoin | coordinator/src/segmenter.rs:161-167 | scene changes of contiguous segments join to those of all their frames |
| SegmentLaws.ComplexityConserved | coordinator/src/segmenter.rs:147-159 | averages weighted by length give back the map's total |
| SegmentLaws.DurationsAddUp | coordinator/src/segmenter.rs:44-130 | durations of contiguous segments telescope |
| SegmentLaws.SegmentsConserve | coordinator/src/segmenter.rs:139-178 | without a dropped tail the video's scene changes, total complexity and duration are conserved |
| Playlist.GenerateMediaPlaylist | coordinator/src/main.rs:755-850 | one entry per result in order, and the target duration is the least whole number that no segment's duration exceeds |
| Playlist.WithinTargetDuration | coordinator/src/main.rs:764-850 | every written duration, rounded, is at most the target duration (section 4.3.3.1 of RFC 8216) |
| Playlist.EntryIsExact | coordinator/src/main.rs:764-850 | an entry names its result's file and its segment's duration to half a microsecond, zero for an unknown id |
| Playlist.PlaylistCoversVideo | coordinator/src/main.rs:562-563 | whatever order results came in, entry i is segment i and durations add up to the time after the first keyframe |
| Gops.PositionsFromKeys | cluster/src/media.rs:277-282 | inserting frame 0 when it is unmarked gives frame 0 and the later keyframes |
| Gops.KeyframePass | cluster/src/media.rs:242-282 | frame 0 and exactly the marked frames, in order, each with its packet's time, 0.0 for an inserted one |
| Gops.GopPass | cluster/src/media.rs:284-336 | one group per kept position, with its exact bounds, times, bytes and bitrate |
| Gops.PassesAgree | cluster/src/media.rs:253-336 | groups start exactly at the kept positions if and only if there are packets |
| Gops.GopsTile | cluster/src/media.rs:284-336 | groups tile all frames, start with a keyframe or frame 0, and hold no later keyframe |
| Gops.GroupIsExact | cluster/src/media.rs:284-336 | a group has just its own packets' bytes and times, and its rate times its duration is its size in bits, or it lasts at most a millisecond and has rate zero |
| Gops.BytesConserved | cluster/src/media.rs:284-336 | group sizes add up to the packet sizes |
| Gops.SegmenterReady | cluster/src/media.rs:253-282 | kept positions increase from 0 and meet the segmenter's precondition |
| CopyPlan.EstimateTargetBitrate | cluster/src/media.rs:434-471 | the target is positive for every resolution, quality and encoder |
| CopyPlan.TargetScales | cluster/src/media.rs:434-471 | each quality step changes the target by 12%, and more pixels never lower it |
| CopyPlan.TunedWithin | cluster/src/media.rs:549-564 | the tolerance exists exactly when the bound is at least 0.05 or there is nothing to tune, never exceeds the bound, and grows with it |
| CopyPlan.NearGroupsCopied | cluster/src/media.rs:683-708 | when every group is near the target, every range that meets one is copied |
| CopyPlan.RecommendationMatchesPlan | cluster/src/media.rs:659-751 | if the recommendation finds fraction 1, smart-auto copies every range that meets a group |
| CopyPlan.AutoIsMoreCautious | cluster/src/media.rs:659-712 | smart-auto copies a subset of what smart copies, and both grow with the tolerance |
| CopyPlan.SingleGroupRange | cluster/src/media.rs:683-739 | a range that meets one group is copied exactly when the recommendation counts that group |
| CopyPlan.AverageHidesGroups | cluster/src/media.rs:683-739 | a range can be copied although the recommendation finds no group near the target |
| CopyPlan.UniformModes | cluster/src/media.rs:659-712 | mode copy copies every range and an unknown mode none, whatever the groups |
| CopyPlan.SmartModes | cluster/src/media.rs:675-710 | the smart modes copy exactly the ranges whose overlapping groups exist and are on average within the tolerance of the target, none when blocked; the tolerance is the given or the tuned one |
| CopyPlan.TunedToSpread | cluster/src/media.rs:549-564 | groups spread by d around m times the target are tuned to 2d less the distance of m from 1, between 0.05 and the bound |
| CopyPlan.TargetTable | cluster/src/media.rs:434-471 | at quality 23 the target is 40, 8, 4 or 2 Mbit/s by resolution for libx264 and half of it for libx265 |
| CopyPlan.RecommendedByShare | cluster/src/media.rs:715-751 | copy is recommended from nine tenths of the groups near the target on, normal up to one tenth, smart-auto between |
| FileOrder.PresplitPaths | coordinator/src/main.rs:1019-1037 | all finished paths sorted, or the first failure |
| FileOrder.PaddedIsFixed | coordinator/src/main.rs:981-985 | a number that fits is written with exactly the width's digits |
| FileOrder.NamesInOrder | coordinator/src/main.rs:1036-1037 | within the width, name order is number order |
| FileOrder.FileOrderIsSegmentOrder | coordinator/src/main.rs:969-1038 | sorting puts segment i at index i if and only if there are at most 10^k segments (k = 4 here, 3 at cluster/src/main.rs:1390-1431) |
| Rebase.CopySegment | worker/src/main.rs:296-351 | the packets written and the count of video packets, or the error without a pre-cut input |
| Rebase.StartIsZero | worker/src/main.rs:187-194 | a pre-cut video's own start maps to tick 0 exactly, and exactly the packets not before it are kept |
| Rebase.GapsKept | worker/src/main.rs:201-237 | kept packets keep pts - dts and are presented at 0 or later |
| Rebase.OrderKept | worker/src/main.rs:326-347 | the output is the kept packets, all of them, in input order |
| Rebase.OriginNear | worker/src/main.rs:187-189 | rounding the origin to ticks moves it by at most half a tick |
| Rebase.AudioStaysInSync | worker/src/main.rs:201-348 | audio moves against video by at most half an audio tick, and not at all if the video's start is unknown |
| Rebase.AudioKept | worker/src/main.rs:201-237 | exactly the audio packets in the window and not before an origin tick at most half a tick off, or without a timestamp, are kept, moved to the audio stream and by that tick |
| Rebase.StreamsKept | worker/src/main.rs:326-348 | video goes to stream 0 and is dropped without a timestamp, audio goes to the audio stream, the rest is dropped |
| Rebase.CountIsWritten | worker/src/main.rs:325-342 | the count returned is of the packets written to the video stream |
| PoolResize.Resizer.ScaleWorkers | web/server.js:282-290 | an accepted request supersedes the pending size and starts the loop only if it is idle; nothing is queued where the pool cannot be resized |
| PoolResize.Resizer.OnAnswer | web/server.js:153-169 | conflicts are retried up to 30 attempts; anything else settles the target |
| PoolResize.InvKept | web/server.js:258-290 | every event keeps the loop's invariant |
| PoolResize.NoRequestLost | web/server.js:258-290 | in every interleaving at most one resize runs, sizes are attempted in the order requested, and when idle the last attempted is the last requested |
| PoolResize.GoesIdle | web/server.js:153-282 | once requests stop the loop is idle after at most 119 more events, and only then is no event left |
| PoolResize.ThirtyAttempts | web/server.js:153-169 | a target met by conflicts alone is neither given up nor changed before its thirtieth conflict, whatever is requested meanwhile |
| PoolResize.AnswerEnds | web/server.js:258-280 | any other answer, or the thirtieth conflict, ends the target: the loop goes on with the size requested last, or is idle if that was the target |

## Left out

- Joining and handshakes: membership is fixed during a run; a joining node is one that is there from the start and runs late.
- Message loss between live nodes: a broadcast reaches every live peer; only packets to a crashed node are lost.
- Safety under a timeout that fires early: it fails, see ElectionLimits.UndrainedTimeoutsSplit; ElectionTiming states the delay bound that excludes it.
- Integer widths: counters, ids and frame numbers do not overflow; `start + target` in the segmenter is unbounded, where the program's sum could wrap near 2^64.
- Floating-point rounding: products, averages and comparisons are exact; NaN does not occur, so the sort's equal-on-NaN fallback is not modelled.
- Descriptors after a reassignment: ids are conserved but placeholders replace the original descriptors, as in the code.
- Capacity across calls: slot limits hold per scheduling call only, because load comes from heartbeats.
- Repeated reports in Cluster: channels there deliver once; SegmentRuns and Assembly allow stale and repeated reports but then claim no single ending.
- Cancelling a worker: its cancel channel has no user, so a task ends only by itself.
- Joint liveness: enough rounds of ticks are shown to end every job, but that ticks keep coming and workers keep finishing is not.
- Worker identity of results: a worker's result is taken to carry the segment id and node it was started for.
- The outcome of assembling: its start is an event; the later success or failure broadcast is not modelled.
- Scheduler.Scheduler.Schedule: per-job state is a value inside the job table, so aliasing of a job's queue is not captured.
- Draining: `set_draining` has no caller; a Draining entry is kept by heartbeats under capacity, and a Busy one forgets it, as in the code.
- Gossiped node entries: excluded from Stranding's runs, with the exact condition under which they strand segments.
- CopyPlan.EstimateTargetBitrate: its own contract is only that the target is positive; TargetScales relates targets and TargetTable gives them for two encoders, while the other encoders' factors stand in the function only.
- Parsing and file systems: ffprobe output, path handling, playlist headers and the master playlist's track lines.
- Rebase.CopySegment: stops before FFmpeg's conversion to the output time base and the muxer's own checks.
- Copy compatibility checks and square roots: `CopyPlan` takes the blockers' outcome and the square root function as parameters.
- Gop start times: the first group is timed from zero, so no alignment with the keyframe timestamps is claimed.
- PoolResize.Resizer.ScaleWorkers: a request counts when its cluster call has succeeded, so requests are ordered by that moment.
- Object store, SRT, subprocesses, web routes, authentication, desktop shell and analysis numerics: foreign calls or single-branch code.
