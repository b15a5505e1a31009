/** Cutting a video into segments at keyframes (coordinator/src/segmenter.rs). */
module Segmenter {
  import opened Common
  import opened Collections

  datatype VideoMetadata = VideoMetadata(
    durationSecs: real, fps: real, totalFrames: nat, keyframePositions: seq<nat>, keyframeTimestamps: seq<real>,
    sceneChanges: seq<nat>, complexityMap: seq<real>)

  datatype Segment = Segment(
    id: nat, startFrame: nat, endFrame: nat, startTimestamp: real, endTimestamp: real,
    complexityEstimate: real, containsSceneChanges: seq<nat>)

  datatype SegmentError = NoFrames | NoKeyframes | TargetTooSmall

  /** Rounds half up; what would be negative becomes zero, as the cast to an unsigned type does. */
  function RoundToU64(x: real): (r: nat)
    ensures x < 0.0 ==> r == 0
    ensures x >= 0.0 ==> x - 0.5 < r as real <= x + 0.5
  {
    if x < 0.0 then 0 else (x + 0.5).Floor
  }

  // ----- one segment -----

  /** The entries of a per-frame map for frames `from` to `to - 1`, as far as the map goes. */
  function Slice(m: seq<real>, from: nat, to: nat): seq<real>
    requires from <= to
  {
    m[Min(from, |m|)..Min(to, |m|)]
  }

  function Average(s: seq<real>): real { if s == [] then 0.0 else Total(s) / |s| as real }

  function Within(changes: seq<nat>, first: nat, last: nat): seq<nat> {
    if changes == [] then []
    else Within(changes[..|changes| - 1], first, last)
         + (if first <= changes[|changes| - 1] <= last then [changes[|changes| - 1]] else [])
  }

  function BuildSegment(id: nat, first: nat, last: nat, startTs: real, endTs: real, md: VideoMetadata): Segment {
    Segment(id, first, last, startTs, endTs,
            if last + 1 > first then Average(Slice(md.complexityMap, first, last + 1)) else 0.0,
            Within(md.sceneChanges, first, last))
  }

  // ----- where segments start -----

  function Distance(a: nat, b: nat): nat { if a <= b then b - a else a - b }

  /** `k` is the leftmost of the keyframes nearest to `target` among those after index `i`. */
  ghost predicate IsNearestAfter(kf: seq<nat>, i: int, target: nat, k: nat) {
    && -1 <= i < k < |kf|
    && forall m :: i < m < |kf| ==>
         && Distance(kf[k], target) <= Distance(kf[m], target)
         && (m < k ==> Distance(kf[k], target) < Distance(kf[m], target))
  }

  function NearestAfter(kf: seq<nat>, i: nat, target: nat): (k: nat)
    requires i + 1 < |kf|
    ensures IsNearestAfter(kf, i, target, k)
    decreases |kf| - i
  {
    if i + 2 == |kf| then i + 1
    else
      var k := NearestAfter(kf, i + 1, target);
      if Distance(kf[i + 1], target) <= Distance(kf[k], target) then i + 1 else k
  }

  predicate Indexes(starts: seq<nat>, kf: seq<nat>) { forall k :: 0 <= k < |starts| ==> starts[k] < |kf| }

  /**
   The keyframes at which segments start, from keyframe `i` on: each next one is the nearest
   to `target` frames later, until the rest of the video is no longer than that.
   */
  function Starts(kf: seq<nat>, total: nat, target: nat, i: nat): (starts: seq<nat>)
    requires i < |kf|
    ensures |starts| >= 1 && starts[0] == i && Indexes(starts, kf)
    decreases |kf| - i
  {
    if kf[i] + target >= total || i + 1 == |kf| then [i]
    else [i] + Starts(kf, total, target, NearestAfter(kf, i, kf[i] + target))
  }

  /** The last keyframe starts a segment of its own and is the last frame: nothing follows it. */
  predicate TailDropped(kf: seq<nat>, total: nat, starts: seq<nat>)
    requires kf != [] && starts != []
  {
    |starts| > 1 && starts[|starts| - 1] == |kf| - 1 && total <= kf[|kf| - 1] + 1
  }

  predicate Usable(md: VideoMetadata) {
    md.keyframePositions != [] && |md.keyframeTimestamps| == |md.keyframePositions|
  }

  /** The segment from the k-th start to the next one, or to the end of the video. */
  function SegmentAt(md: VideoMetadata, starts: seq<nat>, k: nat): Segment
    requires Usable(md) && k < |starts| && Indexes(starts, md.keyframePositions)
  {
    var i := starts[k];
    if k + 1 < |starts| then
      var j := starts[k + 1];
      BuildSegment(k, md.keyframePositions[i], if md.keyframePositions[j] == 0 then 0 else md.keyframePositions[j] - 1,
                   md.keyframeTimestamps[i], md.keyframeTimestamps[j], md)
    else
      BuildSegment(k, md.keyframePositions[i], if md.totalFrames == 0 then 0 else md.totalFrames - 1,
                   md.keyframeTimestamps[i], md.durationSecs, md)
  }

  function FirstSegments(md: VideoMetadata, starts: seq<nat>, n: nat): (segments: seq<Segment>)
    requires Usable(md) && n <= |starts| && Indexes(starts, md.keyframePositions)
    ensures |segments| == n && forall k :: 0 <= k < n ==> segments[k] == SegmentAt(md, starts, k)
  {
    if n == 0 then [] else FirstSegments(md, starts, n - 1) + [SegmentAt(md, starts, n - 1)]
  }

  function Segments(md: VideoMetadata, target: nat): seq<Segment>
    requires Usable(md)
  {
    var starts := Starts(md.keyframePositions, md.totalFrames, target, 0);
    FirstSegments(md, starts,
      if TailDropped(md.keyframePositions, md.totalFrames, starts) then |starts| - 1 else |starts|)
  }

  // ----- the loop -----

  method BinarySearch(kf: seq<nat>, x: nat) returns (found: bool, at: nat)
    requires Increasing(kf)
    ensures at <= |kf|
    ensures forall m :: 0 <= m < at ==> kf[m] < x
    ensures forall m :: at <= m < |kf| ==> kf[m] >= x
    ensures found <==> at < |kf| && kf[at] == x
  {
    var lo, hi := 0, |kf|;
    while lo < hi
      invariant 0 <= lo <= hi <= |kf|
      invariant forall m :: 0 <= m < lo ==> kf[m] < x
      invariant forall m :: hi <= m < |kf| ==> kf[m] >= x
    {
      var mid := (lo + hi) / 2;
      if kf[mid] < x {
        lo := mid + 1;
      } else {
        hi := mid;
      }
    }
    found, at := lo < |kf| && kf[lo] == x, lo;
  }

  /** The nearest keyframe of all, the earlier one of a tie. */
  method FindNearestKeyframe(kf: seq<nat>, target: nat) returns (k: nat)
    requires Increasing(kf) && kf != []
    ensures IsNearestAfter(kf, -1, target, k)
  {
    var found, at := BinarySearch(kf, target);
    if found {
      k := at;
    } else if at == 0 {
      k := 0;
    } else if at >= |kf| {
      k := |kf| - 1;
    } else if target - kf[at - 1] <= kf[at] - target {
      k := at - 1;
    } else {
      k := at;
    }
  }

  // ----- the chain of starts, link by link -----

  /** What follows the n-th start: the nearest later keyframe, or nothing. */
  ghost predicate Link(kf: seq<nat>, total: nat, target: nat, starts: seq<nat>, n: nat)
    requires n < |starts| && Indexes(starts, kf)
  {
    var i := starts[n];
    if n + 1 < |starts| then
      kf[i] + target < total && i + 1 < |kf| && IsNearestAfter(kf, i, kf[i] + target, starts[n + 1])
    else
      kf[i] + target >= total || i + 1 == |kf|
  }

  ghost predicate Linked(kf: seq<nat>, total: nat, target: nat, starts: seq<nat>) {
    Indexes(starts, kf) && |starts| >= 1 && forall n: nat :: n < |starts| ==> Link(kf, total, target, starts, n)
  }

  lemma {:induction false} StartsLinked(kf: seq<nat>, total: nat, target: nat, i: nat)
    requires i < |kf|
    ensures Linked(kf, total, target, Starts(kf, total, target, i))
    decreases |kf| - i
  {
    var starts := Starts(kf, total, target, i);
    if kf[i] + target < total && i + 1 < |kf| {
      var k := NearestAfter(kf, i, kf[i] + target);
      var rest := Starts(kf, total, target, k);
      StartsLinked(kf, total, target, k);
      assert starts == [i] + rest;
      forall n: nat | n < |starts|
        ensures Link(kf, total, target, starts, n)
      {
        if n > 0 {
          assert Link(kf, total, target, rest, n - 1);
          LinkLater(kf, total, target, i, rest, n - 1);
        }
      }
    }
  }

  lemma LinkLater(kf: seq<nat>, total: nat, target: nat, i: nat, rest: seq<nat>, n: nat)
    requires i < |kf| && n < |rest| && Indexes(rest, kf) && Link(kf, total, target, rest, n)
    ensures Link(kf, total, target, [i] + rest, n + 1)
  {
    var starts := [i] + rest;
    assert starts[n + 1] == rest[n] && (n + 1 < |rest| ==> starts[n + 2] == rest[n + 1]);
  }

  lemma LastLink(kf: seq<nat>, total: nat, target: nat, starts: seq<nat>, n: nat)
    requires Linked(kf, total, target, starts) && n < |starts|
    ensures n + 1 == |starts| <==> kf[starts[n]] + target >= total || starts[n] + 1 == |kf|
  {
    assert Link(kf, total, target, starts, n);
  }

  lemma NearestUnique(kf: seq<nat>, i: int, target: nat, k: nat, m: nat)
    requires IsNearestAfter(kf, i, target, k) && IsNearestAfter(kf, i, target, m)
    ensures k == m
  {
    assert Distance(kf[k], target) <= Distance(kf[m], target) && Distance(kf[m], target) <= Distance(kf[k], target);
  }

  lemma NextIsNearest(kf: seq<nat>, i: nat, target: nat)
    requires Increasing(kf) && i + 1 < |kf| && kf[i] < target && IsNearestAfter(kf, -1, target, i)
    ensures IsNearestAfter(kf, i, target, i + 1)
  {
    assert Distance(kf[i], target) <= Distance(kf[i + 1], target);
    assert kf[i] < kf[i + 1] && kf[i + 1] > target;
    forall m | i < m < |kf|
      ensures Distance(kf[i + 1], target) <= Distance(kf[m], target)
    {
      assert m > i + 1 ==> kf[i + 1] < kf[m];
    }
  }

  /** The nearest of all keyframes if it is later than keyframe `i`, else the next one. */
  lemma NextStart(kf: seq<nat>, i: nat, target: nat, k: nat)
    requires Increasing(kf) && i + 1 < |kf| && kf[i] < target && IsNearestAfter(kf, -1, target, k)
    ensures IsNearestAfter(kf, i, target, if k <= i then i + 1 else k)
  {
    if k <= i {
      assert Distance(kf[k], target) <= Distance(kf[i], target) && kf[k] <= kf[i];
      assert k == i;
      NextIsNearest(kf, i, target);
    }
  }

  /** Where the segment that starts at the n-th start ends, if the video goes on long enough. */
  method NextKeyframe(kf: seq<nat>, total: nat, target: nat, i: nat, ghost starts: seq<nat>, ghost n: nat)
    returns (next: nat)
    requires Increasing(kf) && Linked(kf, total, target, starts)
    requires n < |starts| && i == starts[n] && kf[i] + target < total && target > 0
    ensures i + 1 == |kf| ==> next == i && n + 1 == |starts|
    ensures i + 1 < |kf| ==> n + 1 < |starts| && next == starts[n + 1] && i < next < |kf| && kf[i] < kf[next]
  {
    assert Link(kf, total, target, starts, n);
    next := FindNearestKeyframe(kf, kf[i] + target);
    if i + 1 < |kf| {
      NextStart(kf, i, kf[i] + target, next);
      NearestUnique(kf, i, kf[i] + target, if next <= i then i + 1 else next, starts[n + 1]);
    }
    if next <= i {
      next := if i + 1 <= |kf| - 1 then i + 1 else |kf| - 1;
    }
  }

  ghost predicate OnePerStart(md: VideoMetadata, starts: seq<nat>, all: seq<Segment>)
    requires Usable(md) && Indexes(starts, md.keyframePositions)
  {
    |all| == |starts| && forall k :: 0 <= k < |all| ==> all[k] == SegmentAt(md, starts, k)
  }

  /** The segment that the next start opens, cut at keyframe `j`. */
  method PushUpTo(md: VideoMetadata, segments: seq<Segment>, i: nat, j: nat, ghost starts: seq<nat>, ghost all: seq<Segment>)
    returns (segments': seq<Segment>)
    requires Usable(md) && Indexes(starts, md.keyframePositions) && OnePerStart(md, starts, all)
    requires |segments| + 1 < |starts| && segments == all[..|segments|]
    requires i == starts[|segments|] && j == starts[|segments| + 1] && md.keyframePositions[j] > 0
    ensures |segments'| == |segments| + 1 && segments' == all[..|segments'|]
  {
    segments' := segments + [BuildSegment(|segments|, md.keyframePositions[i], md.keyframePositions[j] - 1,
                                          md.keyframeTimestamps[i], md.keyframeTimestamps[j], md)];
    assert all[|segments|] == SegmentAt(md, starts, |segments|);
  }

  /** The last segment, up to the end of the video. */
  method PushFinal(md: VideoMetadata, segments: seq<Segment>, i: nat, ghost starts: seq<nat>, ghost all: seq<Segment>)
    returns (segments': seq<Segment>)
    requires Usable(md) && Indexes(starts, md.keyframePositions) && OnePerStart(md, starts, all)
    requires |segments| + 1 == |starts| && segments == all[..|segments|] && md.totalFrames > 0
    requires i == starts[|segments|]
    ensures segments' == all
  {
    segments' := segments + [BuildSegment(|segments|, md.keyframePositions[i], md.totalFrames - 1,
                                          md.keyframeTimestamps[i], md.durationSecs, md)];
    assert all[|segments|] == SegmentAt(md, starts, |segments|);
    assert all == all[..|segments|] + [all[|segments|]];
  }

  method CreateSegments(md: VideoMetadata, targetDurationSecs: real) returns (r: Result<seq<Segment>, SegmentError>)
    requires Increasing(md.keyframePositions) && |md.keyframeTimestamps| == |md.keyframePositions|
    ensures var target := RoundToU64(targetDurationSecs * md.fps);
            r == if md.totalFrames == 0 then Err(NoFrames)
                 else if md.keyframePositions == [] then Err(NoKeyframes)
                 else if target == 0 then Err(TargetTooSmall)
                 else Ok(Segments(md, target))
  {
    if md.totalFrames == 0 {
      return Err(NoFrames);
    }
    if md.keyframePositions == [] {
      return Err(NoKeyframes);
    }
    var target := RoundToU64(targetDurationSecs * md.fps);
    if target == 0 {
      return Err(TargetTooSmall);
    }
    StartsLinked(md.keyframePositions, md.totalFrames, target, 0);
    ghost var starts := Starts(md.keyframePositions, md.totalFrames, target, 0);
    ghost var all := FirstSegments(md, starts, |starts|);
    var segments := CutLoop(md, target, starts, all);
    assert segments == Segments(md, target);
    return Ok(segments);
  }

  method CutLoop(md: VideoMetadata, target: nat, ghost starts: seq<nat>, ghost all: seq<Segment>)
    returns (segments: seq<Segment>)
    requires Usable(md) && Increasing(md.keyframePositions) && md.totalFrames > 0 && target > 0
    requires Linked(md.keyframePositions, md.totalFrames, target, starts) && starts[0] == 0
    requires OnePerStart(md, starts, all)
    ensures segments == if TailDropped(md.keyframePositions, md.totalFrames, starts) then all[..|all| - 1] else all
  {
    var kf, total := md.keyframePositions, md.totalFrames;
    segments := [];
    var segStartIdx := 0;
    while true
      invariant |segments| < |starts| && segStartIdx == starts[|segments|]
      invariant segments == all[..|segments|]
      invariant segments != [] ==> segStartIdx + 1 < |kf|
      decreases |kf| - segStartIdx
    {
      if kf[segStartIdx] + target >= total {
        LastLink(kf, total, target, starts, |segments|);
        segments := PushFinal(md, segments, segStartIdx, starts, all);
        return;
      }
      var next := NextKeyframe(kf, total, target, segStartIdx, starts, |segments|);
      if next == segStartIdx {
        segments := PushFinal(md, segments, segStartIdx, starts, all);
        return;
      }
      segments := PushUpTo(md, segments, segStartIdx, next, starts, all);
      segStartIdx := next;
      if segStartIdx >= |kf| - 1 {
        LastLink(kf, total, target, starts, |segments|);
        if total - 1 > kf[segStartIdx] {
          segments := PushFinal(md, segments, segStartIdx, starts, all);
        }
        return;
      }
    }
  }
}
