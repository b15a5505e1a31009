/**
 Resizing the worker pool (web/server.js). Asynchronous code runs up to its next wait and is
 resumed later, in any order; a chain is one suspended run of the resize loop.
 */
module PoolResize {
  import opened Common

  const POOL_RESIZE_RETRY_ATTEMPTS: nat := 30

  datatype Phase = InFlight | Waiting

  /** A run of the loop, suspended in an update of the pool or in the pause before a retry. */
  datatype Chain = Chain(target: int, attempt: nat, phase: Phase)

  /** How the pool answers an update. */
  datatype Outcome = Accepted | Conflict | Failed

  datatype Pool = Pool(desired: Option<int>, running: bool, chains: seq<Chain>, requested: seq<int>, attempted: seq<int>)

  function Remove(chains: seq<Chain>, k: nat): seq<Chain>
    requires k < |chains|
  {
    chains[..k] + chains[k + 1..]
  }

  /** The head of the loop: the next target is submitted, or the loop ends. */
  function Loop(p: Pool): Pool {
    if p.desired.None? then p.(running := false)
    else p.(chains := p.chains + [Chain(p.desired.value, 1, InFlight)], attempted := p.attempted + [p.desired.value])
  }

  function RunPoolResizes(p: Pool): Pool { if p.running then p else Loop(p.(running := true)) }

  function Request(p: Pool, size: int): Pool {
    RunPoolResizes(p.(desired := Some(size), requested := p.requested + [size]))
  }

  /** A target is done with, whether it was accepted or given up. */
  function Settle(p: Pool, k: nat): Pool
    requires k < |p.chains|
  {
    Loop(p.(chains := Remove(p.chains, k), desired := if p.desired == Some(p.chains[k].target) then None else p.desired))
  }

  function Answer(p: Pool, k: nat, outcome: Outcome): Pool
    requires k < |p.chains|
  {
    if outcome == Conflict && p.chains[k].attempt < POOL_RESIZE_RETRY_ATTEMPTS
    then p.(chains := p.chains[k := p.chains[k].(phase := Waiting)])
    else Settle(p, k)
  }

  function Retry(p: Pool, k: nat): Pool
    requires k < |p.chains|
  {
    p.(chains := p.chains[k := Chain(p.chains[k].target, p.chains[k].attempt + 1, InFlight)])
  }

  class Resizer {
    const minReplicas: int
    const baseline: int
    /** Whether the pool can be resized at all. */
    const available: bool
    var resizeDesiredSize: Option<int>
    var resizeRunning: bool
    var chains: seq<Chain>
    ghost var requested: seq<int>
    ghost var attempted: seq<int>

    ghost function State(): Pool
      reads this
    {
      Pool(resizeDesiredSize, resizeRunning, chains, requested, attempted)
    }

    constructor (minReplicas: int, baseline: int, available: bool)
      ensures this.minReplicas == minReplicas && this.baseline == baseline && this.available == available
      ensures State() == Pool(None, false, [], [], [])
    {
      this.minReplicas, this.baseline, this.available := minReplicas, baseline, available;
      resizeDesiredSize, resizeRunning, chains, requested, attempted := None, false, [], [], [];
    }

    method EnterLoop()
      modifies this
      ensures State() == Loop(old(State()))
    {
      if resizeDesiredSize.Some? {
        var target := resizeDesiredSize.value;
        chains := chains + [Chain(target, 1, InFlight)];
        attempted := attempted + [target];
      } else {
        resizeRunning := false;
      }
    }

    /** `patched`: the replica count was accepted by the cluster. */
    method ScaleWorkers(replicas: int, patched: bool) returns (r: Result<int, string>)
      modifies this
      ensures minReplicas <= replicas <= 50 && patched ==>
                && r == Ok(replicas)
                && State() == if available then Request(old(State()), baseline + replicas) else old(State())
      ensures !(minReplicas <= replicas <= 50 && patched) ==> r.Err? && State() == old(State())
    {
      if replicas < minReplicas || replicas > 50 {
        return Err("replicas out of range");
      }
      if !patched {
        return Err("scale request failed");
      }
      if available {
        resizeDesiredSize := Some(baseline + replicas);
        requested := requested + [baseline + replicas];
        if !resizeRunning {
          resizeRunning := true;
          EnterLoop();
        }
      }
      return Ok(replicas);
    }

    /** The pool's answer resumes chain `k`. */
    method OnAnswer(k: nat, outcome: Outcome)
      requires k < |chains| && chains[k].phase == InFlight
      modifies this
      ensures State() == Answer(old(State()), k, outcome)
    {
      var c := chains[k];
      if outcome == Conflict && c.attempt < POOL_RESIZE_RETRY_ATTEMPTS {
        chains := chains[k := c.(phase := Waiting)];
        return;
      }
      chains := chains[..k] + chains[k + 1..];
      if resizeDesiredSize == Some(c.target) {
        resizeDesiredSize := None;
      }
      EnterLoop();
    }

    /** The pause before the next attempt of chain `k` is over. */
    method OnPauseOver(k: nat)
      requires k < |chains| && chains[k].phase == Waiting
      modifies this
      ensures State() == Retry(old(State()), k)
    {
      chains := chains[k := Chain(chains[k].target, chains[k].attempt + 1, InFlight)];
    }
  }

  // ----- interleavings -----

  datatype Step = Scale(size: int) | Answered(at: nat, outcome: Outcome) | PauseOver(at: nat)

  predicate Possible(p: Pool, s: Step) {
    match s
    case Scale(_) => true
    case Answered(at, _) => at < |p.chains| && p.chains[at].phase == InFlight
    case PauseOver(at) => at < |p.chains| && p.chains[at].phase == Waiting
  }

  function Apply(p: Pool, s: Step): Pool
    requires Possible(p, s)
  {
    match s
    case Scale(size) => Request(p, size)
    case Answered(at, outcome) => Answer(p, at, outcome)
    case PauseOver(at) => Retry(p, at)
  }

  ghost predicate Run(p: Pool, steps: seq<Step>, p': Pool)
    decreases |steps|
  {
    if steps == [] then p' == p else Possible(p, steps[0]) && Run(Apply(p, steps[0]), steps[1..], p')
  }

  function Last(s: seq<int>): int
    requires s != []
  {
    s[|s| - 1]
  }

  /** `a` is `r` with some elements left out. */
  predicate Subsequence(a: seq<int>, r: seq<int>)
    decreases |r|
  {
    a == [] || (r != [] && ((Last(a) == Last(r) && Subsequence(a[..|a| - 1], r[..|r| - 1])) || Subsequence(a, r[..|r| - 1])))
  }

  ghost predicate Inv(p: Pool) {
    && Subsequence(p.attempted, p.requested)
    && (p.running <==> p.chains != [])
    && |p.chains| <= 1
    && (p.requested == [] <==> p.attempted == [])
    && (p.requested == [] ==> p.chains == [])
    && (p.chains == [] ==> p.desired.None? && (p.requested != [] ==> Last(p.attempted) == Last(p.requested)))
    && (p.chains != [] ==>
          && p.desired == Some(Last(p.requested)) && Last(p.attempted) == p.chains[0].target
          && 1 <= p.chains[0].attempt <= POOL_RESIZE_RETRY_ATTEMPTS
          && (p.chains[0].phase == Waiting ==> p.chains[0].attempt < POOL_RESIZE_RETRY_ATTEMPTS))
  }

  lemma SubsequenceGrows(a: seq<int>, r: seq<int>, x: int)
    requires Subsequence(a, r)
    ensures Subsequence(a, r + [x]) && Subsequence(a + [x], r + [x])
  {
    assert (r + [x])[..|r|] == r && (a + [x])[..|a|] == a;
  }

  /** Attempting the last request, when it is not what was attempted last, is still in order. */
  lemma SubsequenceCatchesUp(a: seq<int>, r: seq<int>)
    requires Subsequence(a, r) && a != [] && r != [] && Last(a) != Last(r)
    ensures Subsequence(a + [Last(r)], r)
  {
    assert (a + [Last(r)])[..|a|] == a;
  }

  lemma {:induction false} SubsequenceShorter(a: seq<int>, r: seq<int>)
    requires Subsequence(a, r)
    ensures |a| <= |r| && forall x :: x in a ==> x in r
    decreases |r|
  {
    if a != [] {
      if Last(a) == Last(r) && Subsequence(a[..|a| - 1], r[..|r| - 1]) {
        SubsequenceShorter(a[..|a| - 1], r[..|r| - 1]);
        assert a == a[..|a| - 1] + [Last(a)] && r == r[..|r| - 1] + [Last(r)];
      } else {
        SubsequenceShorter(a, r[..|r| - 1]);
      }
    }
  }

  lemma InvKept(p: Pool, s: Step)
    requires Inv(p) && Possible(p, s)
    ensures Inv(Apply(p, s))
  {
    match s {
      case Scale(size) => SubsequenceGrows(p.attempted, p.requested, size);
      case Answered(at, outcome) =>
        if Last(p.attempted) != Last(p.requested) {
          SubsequenceCatchesUp(p.attempted, p.requested);
        }
      case PauseOver(at) =>
    }
  }

  /** What is left to do before the loop is idle, if nothing else is requested. */
  function Work(p: Pool): nat {
    if p.chains == [] then 0
    else
      var c := p.chains[0];
      (if c.attempt <= POOL_RESIZE_RETRY_ATTEMPTS then 2 * (POOL_RESIZE_RETRY_ATTEMPTS - c.attempt) else 0)
      + (if c.phase == InFlight then 1 else 0)
      + (if p.desired == Some(c.target) then 0 else 2 * POOL_RESIZE_RETRY_ATTEMPTS)
  }

  lemma WorkDecreases(p: Pool, s: Step)
    requires Inv(p) && Possible(p, s) && !s.Scale?
    ensures Work(Apply(p, s)) < Work(p)
  {
  }

  // ----- main results -----

  lemma {:induction false} RunKeepsInv(p: Pool, steps: seq<Step>, p': Pool)
    requires Inv(p) && Run(p, steps, p')
    ensures Inv(p')
    decreases |steps|
  {
    if steps != [] {
      InvKept(p, steps[0]);
      RunKeepsInv(Apply(p, steps[0]), steps[1..], p');
    }
  }

  /**
   In every interleaving at most one resize is under way; the sizes attempted are some of
   those requested, in order; and whenever the loop is idle, the size attempted last is the
   one requested last.
   */
  lemma NoRequestLost(p: Pool, steps: seq<Step>, p': Pool)
    requires p == Pool(None, false, [], [], []) && Run(p, steps, p')
    ensures |p'.chains| <= 1
    ensures Subsequence(p'.attempted, p'.requested) && |p'.attempted| <= |p'.requested|
    ensures !p'.running && p'.requested != [] ==> p'.attempted != [] && Last(p'.attempted) == Last(p'.requested)
  {
    RunKeepsInv(p, steps, p');
    SubsequenceShorter(p'.attempted, p'.requested);
  }

  /** Once requests stop, the loop is idle after at most 119 more events. */
  lemma {:induction false} GoesIdle(p: Pool, steps: seq<Step>, p': Pool)
    requires Inv(p) && Run(p, steps, p') && forall s :: s in steps ==> !s.Scale?
    ensures |steps| + Work(p') <= Work(p) <= 119
    ensures p'.running <==> exists s :: Possible(p', s) && !s.Scale?
    decreases |steps|
  {
    if steps != [] {
      assert steps[0] in steps;
      InvKept(p, steps[0]);
      WorkDecreases(p, steps[0]);
      GoesIdle(Apply(p, steps[0]), steps[1..], p');
    } else {
      if p.running {
        assert Possible(p, if p.chains[0].phase == InFlight then Answered(0, Accepted) else PauseOver(0));
      }
    }
  }

  // ----- conflicts -----

  /** How far the retries of a target have come: one for each conflict and each pause so far. */
  function Progressed(c: Chain): int { 2 * (c.attempt - 1) + (if c.phase == Waiting then 1 else 0) }

  /** New requests, conflicts and pauses, but no success and no other error. */
  predicate Conflicting(s: Step) { s.Scale? || s.PauseOver? || s.outcome == Conflict }

  function Events(steps: seq<Step>): nat {
    if steps == [] then 0 else (if steps[0].Scale? then 0 else 1) + Events(steps[1..])
  }

  /**
   A target on which the pool only answers with conflicts is neither given up nor changed
   before its thirtieth conflict: not before 59 events, whatever is requested meanwhile.
   */
  lemma {:induction false} ThirtyAttempts(p: Pool, steps: seq<Step>, p': Pool)
    requires Inv(p) && |p.chains| == 1 && Run(p, steps, p') && forall s :: s in steps ==> Conflicting(s)
    requires Progressed(p.chains[0]) + Events(steps) <= 58
    ensures |p'.chains| == 1 && p'.chains[0].target == p.chains[0].target && p'.attempted == p.attempted
    ensures Progressed(p'.chains[0]) == Progressed(p.chains[0]) + Events(steps)
    decreases |steps|
  {
    if steps != [] {
      var s := steps[0];
      assert s in steps;
      InvKept(p, s);
      assert s.Answered? ==> p.chains[0].attempt < 30;
      ThirtyAttempts(Apply(p, s), steps[1..], p');
    }
  }

  /**
   The thirtieth conflict, and any other answer, ends the target: the loop goes on at once with
   the size requested last, or is idle if that was the target.
   */
  lemma AnswerEnds(p: Pool, outcome: Outcome)
    requires Inv(p) && Possible(p, Answered(0, outcome)) && (outcome == Conflict ==> p.chains[0].attempt == 30)
    ensures p.requested != []
    ensures var p' := Apply(p, Answered(0, outcome));
            if Last(p.requested) == p.chains[0].target
            then !p'.running && p'.chains == [] && p'.attempted == p.attempted
            else p'.running && p'.chains == [Chain(Last(p.requested), 1, InFlight)]
                 && p'.attempted == p.attempted + [Last(p.requested)]
  {
  }
}
