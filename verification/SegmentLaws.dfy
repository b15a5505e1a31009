/** What the segments of a video are, as a whole (coordinator/src/segmenter.rs). */
module SegmentLaws {
  import opened Collections
  import opened Segmenter

  /** Keyframes in order and inside the video, each with a timestamp, and a target of at least a frame. */
  ghost predicate Sound(md: VideoMetadata, target: nat) {
    && Usable(md) && Increasing(md.keyframePositions) && target > 0
    && forall i :: 0 <= i < |md.keyframePositions| ==> md.keyframePositions[i] < md.totalFrames
  }

  function StartsOf(md: VideoMetadata, target: nat): (starts: seq<nat>)
    requires Usable(md)
    ensures |starts| >= 1 && Indexes(starts, md.keyframePositions)
  {
    Starts(md.keyframePositions, md.totalFrames, target, 0)
  }

  /** The one-frame tail case: the last keyframe begins a segment and is the last frame. */
  predicate LosesTail(md: VideoMetadata, target: nat)
    requires Usable(md)
  {
    TailDropped(md.keyframePositions, md.totalFrames, StartsOf(md, target))
  }

  lemma LinkK(md: VideoMetadata, target: nat, k: nat)
    requires Sound(md, target) && k < |StartsOf(md, target)|
    ensures Link(md.keyframePositions, md.totalFrames, target, StartsOf(md, target), k)
  {
    StartsLinked(md.keyframePositions, md.totalFrames, target, 0);
  }

  /** The k-th segment, and where the next one starts. */
  lemma SegmentK(md: VideoMetadata, target: nat, k: nat)
    requires Sound(md, target) && k < |Segments(md, target)|
    ensures |Segments(md, target)| == if LosesTail(md, target) then |StartsOf(md, target)| - 1 else |StartsOf(md, target)|
    ensures var starts, kf := StartsOf(md, target), md.keyframePositions;
            && k < |starts|
            && Segments(md, target)[k] == SegmentAt(md, starts, k)
            && Segments(md, target)[k].startFrame == kf[starts[k]]
            && (k + 1 < |starts| ==> starts[k] < starts[k + 1] && kf[starts[k]] < kf[starts[k + 1]])
  {
    LinkK(md, target, k);
  }

  /** The segment starts with a keyframe, at that keyframe's time. */
  ghost predicate StartsAtKeyframe(md: VideoMetadata, s: Segment) {
    exists i :: 0 <= i < |md.keyframePositions| && i < |md.keyframeTimestamps|
      && md.keyframePositions[i] == s.startFrame && md.keyframeTimestamps[i] == s.startTimestamp
  }

  /** One segment, and how the next one continues it. */
  lemma TileK(md: VideoMetadata, target: nat, k: nat)
    requires Sound(md, target) && k < |Segments(md, target)|
    ensures var s := Segments(md, target)[k];
            s.id == k && s.startFrame <= s.endFrame && StartsAtKeyframe(md, s)
    ensures k + 1 < |Segments(md, target)| ==>
              var (s, next) := (Segments(md, target)[k], Segments(md, target)[k + 1]);
              next.startFrame == s.endFrame + 1 && next.startTimestamp == s.endTimestamp
  {
    SegmentK(md, target, k);
    var s, i := Segments(md, target)[k], StartsOf(md, target)[k];
    assert md.keyframePositions[i] == s.startFrame && md.keyframeTimestamps[i] == s.startTimestamp;
    if k + 1 < |Segments(md, target)| {
      SegmentK(md, target, k + 1);
    }
  }

  /** Segments are numbered in order, start at keyframes and tile the video without gap or overlap. */
  lemma SegmentsTile(md: VideoMetadata, target: nat)
    requires Sound(md, target)
    ensures var segments := Segments(md, target);
            && |segments| >= 1
            && segments[0].startFrame == md.keyframePositions[0]
            && segments[0].startTimestamp == md.keyframeTimestamps[0]
            && (forall k :: 0 <= k < |segments| ==>
                  && segments[k].id == k && segments[k].startFrame <= segments[k].endFrame
                  && StartsAtKeyframe(md, segments[k]))
            && (forall k :: 0 <= k < |segments| - 1 ==>
                  && segments[k + 1].startFrame == segments[k].endFrame + 1
                  && segments[k + 1].startTimestamp == segments[k].endTimestamp)
  {
    SegmentK(md, target, 0);
    forall k | 0 <= k < |Segments(md, target)|
      ensures var s := Segments(md, target)[k];
              s.id == k && s.startFrame <= s.endFrame && StartsAtKeyframe(md, s)
    {
      TileK(md, target, k);
    }
    forall k | 0 <= k < |Segments(md, target)| - 1
      ensures var (s, next) := (Segments(md, target)[k], Segments(md, target)[k + 1]);
              next.startFrame == s.endFrame + 1 && next.startTimestamp == s.endTimestamp
    {
      TileK(md, target, k);
    }
  }

  lemma StartsNearest(md: VideoMetadata, target: nat, k: nat)
    requires Sound(md, target) && k + 1 < |StartsOf(md, target)|
    ensures var (starts, kf) := (StartsOf(md, target), md.keyframePositions);
            kf[starts[k]] + target < md.totalFrames && IsNearestAfter(kf, starts[k], kf[starts[k]] + target, starts[k + 1])
  {
    LinkK(md, target, k);
  }

  lemma StartFrameK(md: VideoMetadata, target: nat, k: nat)
    requires Sound(md, target) && k < |Segments(md, target)|
    ensures k < |StartsOf(md, target)|
    ensures Segments(md, target)[k].startFrame == md.keyframePositions[StartsOf(md, target)[k]]
  {
    SegmentK(md, target, k);
  }

  /** Each inner boundary is the leftmost keyframe nearest to start + target after the start. */
  lemma BoundariesAreNearest(md: VideoMetadata, target: nat, k: nat) returns (i: nat, j: nat)
    requires Sound(md, target) && k + 1 < |Segments(md, target)|
    ensures var (segments, kf) := (Segments(md, target), md.keyframePositions);
            && i < |kf| && kf[i] == segments[k].startFrame && kf[i] + target < md.totalFrames
            && i < j < |kf| && kf[j] == segments[k + 1].startFrame
    ensures var kf, ideal := md.keyframePositions, md.keyframePositions[i] + target;
            var miss := if kf[j] >= ideal then kf[j] - ideal else ideal - kf[j];
            && (forall m :: i < m < |kf| ==> kf[m] <= ideal - miss || kf[m] >= ideal + miss)
            && (forall m :: i < m < j ==> kf[m] < ideal - miss || kf[m] > ideal + miss)
  {
    StartFrameK(md, target, k);
    StartFrameK(md, target, k + 1);
    StartsNearest(md, target, k);
    i, j := StartsOf(md, target)[k], StartsOf(md, target)[k + 1];
  }

  /**
   The last segment ends with the video, exactly unless the last keyframe begins a segment and
   is the last frame; then that one frame, and the time after it, is in no segment.
   */
  lemma LastSegmentEnds(md: VideoMetadata, target: nat)
    requires Sound(md, target) && |Segments(md, target)| >= 1
    ensures var last := Segments(md, target)[|Segments(md, target)| - 1];
            && (last.endFrame == md.totalFrames - 1 <==> !LosesTail(md, target))
            && (!LosesTail(md, target) ==> last.endTimestamp == md.durationSecs)
            && (LosesTail(md, target) ==>
                  && last.endFrame == md.totalFrames - 2
                  && last.endTimestamp == md.keyframeTimestamps[|md.keyframePositions| - 1])
  {
    SegmentK(md, target, |Segments(md, target)| - 1);
    LinkK(md, target, |Segments(md, target)| - 1);
  }

  /** What a caller can check first: when the last frame is no keyframe, no tail is lost. */
  lemma TailSafe(md: VideoMetadata, target: nat)
    requires Sound(md, target) && md.keyframePositions[|md.keyframePositions| - 1] != md.totalFrames - 1
    ensures !LosesTail(md, target)
  {
  }

  /** Eleven frames, keyframes at the first and the last. */
  function TailVideo(): VideoMetadata { VideoMetadata(1.1, 10.0, 11, [0, 10], [0.0, 1.0], [], []) }

  /** A video that does lose its tail: of the frames 0 to 10 the only segment holds 0 to 9. */
  lemma TailIsLost()
    ensures Sound(TailVideo(), 10) && LosesTail(TailVideo(), 10)
    ensures |Segments(TailVideo(), 10)| == 1
    ensures Segments(TailVideo(), 10)[0].startFrame == 0 && Segments(TailVideo(), 10)[0].endFrame == 9
  {
    var kf := [0, 10];
    assert NearestAfter(kf, 0, 10) == 1;
    assert Starts(kf, 11, 10, 1) == [1];
    assert Starts(kf, 11, 10, 0) == [0] + [1];
    SegmentK(TailVideo(), 10, 0);
    LastSegmentEnds(TailVideo(), 10);
  }

  // ----- length -----

  /** Consecutive keyframes, and the last one and the end of the video, are at most `gap` apart. */
  ghost predicate GapsAtMost(kf: seq<nat>, total: nat, gap: nat)
    requires kf != []
  {
    && (forall i :: 0 <= i < |kf| - 1 ==> kf[i + 1] - kf[i] <= gap)
    && total - kf[|kf| - 1] <= gap
  }

  function Max(a: nat, b: nat): nat { if a >= b then a else b }

  /** The nearest later keyframe is the next one, or at most half a gap past the target. */
  lemma NearestIsNear(kf: seq<nat>, total: nat, gap: nat, i: nat, target: nat, k: nat)
    requires kf != [] && Increasing(kf) && GapsAtMost(kf, total, gap)
    requires i < |kf| && target > 0 && IsNearestAfter(kf, i, kf[i] + target, k)
    ensures kf[k] - kf[i] <= Max(gap, target + gap / 2)
  {
    var ideal := kf[i] + target;
    assert kf[k - 1 + 1] - kf[k - 1] <= gap;
    if k > i + 1 && kf[k] > ideal {
      assert Distance(kf[k], ideal) < Distance(kf[k - 1], ideal);
      assert kf[k - 1] < kf[k];
    }
  }

  /** Every segment spans at most max(G, T + G/2) frames. */
  lemma LengthBound(md: VideoMetadata, target: nat, gap: nat)
    requires Sound(md, target) && GapsAtMost(md.keyframePositions, md.totalFrames, gap)
    ensures forall s :: s in Segments(md, target) ==> s.endFrame - s.startFrame + 1 <= Max(gap, target + gap / 2)
  {
    forall s | s in Segments(md, target)
      ensures s.endFrame - s.startFrame + 1 <= Max(gap, target + gap / 2)
    {
      var k :| 0 <= k < |Segments(md, target)| && Segments(md, target)[k] == s;
      SegmentK(md, target, k);
      if k + 1 < |StartsOf(md, target)| {
        SpanToNext(md, target, gap, k);
      } else {
        SpanToEnd(md, target, gap);
      }
    }
  }

  lemma LastStart(md: VideoMetadata, target: nat)
    requires Sound(md, target)
    ensures var (starts, kf) := (StartsOf(md, target), md.keyframePositions);
            var last := starts[|starts| - 1];
            kf[last] + target >= md.totalFrames || last + 1 == |kf|
  {
    LinkK(md, target, |StartsOf(md, target)| - 1);
  }

  lemma SpanToNext(md: VideoMetadata, target: nat, gap: nat, k: nat)
    requires Sound(md, target) && GapsAtMost(md.keyframePositions, md.totalFrames, gap)
    requires k + 1 < |StartsOf(md, target)|
    ensures var (starts, kf) := (StartsOf(md, target), md.keyframePositions);
            kf[starts[k + 1]] - kf[starts[k]] <= Max(gap, target + gap / 2)
  {
    var i, j := StartsOf(md, target)[k], StartsOf(md, target)[k + 1];
    StartsNearest(md, target, k);
    NearestIsNear(md.keyframePositions, md.totalFrames, gap, i, target, j);
  }

  lemma SpanToEnd(md: VideoMetadata, target: nat, gap: nat)
    requires Sound(md, target) && GapsAtMost(md.keyframePositions, md.totalFrames, gap)
    ensures var (starts, kf) := (StartsOf(md, target), md.keyframePositions);
            md.totalFrames - kf[starts[|starts| - 1]] <= Max(gap, target + gap / 2)
  {
    LastStart(md, target);
  }

  // ----- what is conserved -----

  ghost predicate Contiguous(segments: seq<Segment>) {
    && (forall k :: 0 <= k < |segments| ==> segments[k].startFrame <= segments[k].endFrame)
    && (forall k :: 0 <= k < |segments| - 1 ==>
          && segments[k + 1].startFrame == segments[k].endFrame + 1
          && segments[k + 1].startTimestamp == segments[k].endTimestamp)
  }

  /** Every segment carries what the builder computes for its frames. */
  ghost predicate Built(md: VideoMetadata, segments: seq<Segment>) {
    forall k :: 0 <= k < |segments| ==>
      var s := segments[k];
      s == BuildSegment(s.id, s.startFrame, s.endFrame, s.startTimestamp, s.endTimestamp, md)
  }

  lemma SegmentsContiguous(md: VideoMetadata, target: nat)
    requires Sound(md, target)
    ensures Contiguous(Segments(md, target)) && Built(md, Segments(md, target))
  {
    SegmentsTile(md, target);
    forall k | 0 <= k < |Segments(md, target)|
      ensures var s := Segments(md, target)[k];
              s == BuildSegment(s.id, s.startFrame, s.endFrame, s.startTimestamp, s.endTimestamp, md)
    {
      SegmentK(md, target, k);
    }
  }

  function ChangesOf(segments: seq<Segment>): seq<nat> {
    if segments == [] then [] else ChangesOf(segments[..|segments| - 1]) + segments[|segments| - 1].containsSceneChanges
  }

  /** Complexity of the segments, weighted by the frames each average was taken over. */
  function WeightedComplexity(md: VideoMetadata, segments: seq<Segment>): real {
    if segments == [] then 0.0
    else
      var last := segments[|segments| - 1];
      WeightedComplexity(md, segments[..|segments| - 1])
      + Contribution(md, last)
  }

  function Contribution(md: VideoMetadata, s: Segment): real { s.complexityEstimate * Weight(md, s) as real }

  function Weight(md: VideoMetadata, s: Segment): nat {
    if s.startFrame <= s.endFrame + 1 then |Slice(md.complexityMap, s.startFrame, s.endFrame + 1)| else 0
  }

  function Duration(s: Segment): real { s.endTimestamp - s.startTimestamp }

  function DurationOf(segments: seq<Segment>): real {
    if segments == [] then 0.0 else DurationOf(segments[..|segments| - 1]) + Duration(segments[|segments| - 1])
  }

  lemma {:induction false} WithinSplit(changes: seq<nat>, a: nat, b: nat, c: nat)
    requires a <= b <= c && forall i, j :: 0 <= i < j < |changes| ==> changes[i] <= changes[j]
    ensures Within(changes, a, c) == Within(changes, a, b) + Within(changes, b + 1, c)
    decreases |changes|
  {
    if changes != [] {
      var front, last := changes[..|changes| - 1], changes[|changes| - 1];
      WithinSplit(front, a, b, c);
      if last <= b {
        NoneWithin(front, b + 1, c);
        assert Within(changes, b + 1, c) == [];
        assert Within(changes, a, b) + [] == Within(changes, a, b) && Within(front, a, b) + [] == Within(front, a, b);
      } else {
        var tail := if last <= c then [last] else [];
        assert Within(front, a, b) + Within(front, b + 1, c) + tail == Within(front, a, b) + (Within(front, b + 1, c) + tail);
      }
    }
  }

  lemma {:induction false} NoneWithin(changes: seq<nat>, a: nat, c: nat)
    requires forall i :: 0 <= i < |changes| ==> changes[i] < a
    ensures Within(changes, a, c) == []
    decreases |changes|
  {
    if changes != [] {
      NoneWithin(changes[..|changes| - 1], a, c);
    }
  }

  lemma {:induction false} AllWithin(changes: seq<nat>, a: nat, c: nat)
    requires forall i :: 0 <= i < |changes| ==> a <= changes[i] <= c
    ensures Within(changes, a, c) == changes
    decreases |changes|
  {
    if changes != [] {
      AllWithin(changes[..|changes| - 1], a, c);
      assert changes == changes[..|changes| - 1] + [changes[|changes| - 1]];
    }
  }

  lemma {:induction false} TotalAppend(s: seq<real>, t: seq<real>)
    ensures Total(s + t) == Total(s) + Total(t)
    decreases |t|
  {
    if t == [] {
      assert s + t == s;
    } else {
      TotalAppend(s, t[..|t| - 1]);
      assert (s + t)[..|s + t| - 1] == s + t[..|t| - 1];
    }
  }

  lemma AverageWeighted(s: seq<real>)
    ensures Average(s) * |s| as real == Total(s)
  {
  }

  ghost predicate SortedChanges(md: VideoMetadata) {
    forall i, j :: 0 <= i < j < |md.sceneChanges| ==> md.sceneChanges[i] <= md.sceneChanges[j]
  }

  lemma {:induction false} FramesGrow(segments: seq<Segment>)
    requires segments != [] && Contiguous(segments)
    ensures segments[0].startFrame <= segments[|segments| - 1].endFrame
    decreases |segments|
  {
    var n := |segments| - 1;
    if n > 0 {
      FramesGrow(segments[..n]);
      assert segments[n - 1 + 1].startFrame == segments[n - 1].endFrame + 1;
    }
  }

  /** Joined, the scene changes of contiguous segments are those of all their frames. */
  lemma {:induction false} ChangesJoin(md: VideoMetadata, segments: seq<Segment>)
    requires segments != [] && Contiguous(segments) && Built(md, segments) && SortedChanges(md)
    ensures ChangesOf(segments) == Within(md.sceneChanges, segments[0].startFrame, segments[|segments| - 1].endFrame)
    decreases |segments|
  {
    var n := |segments| - 1;
    var last, front := segments[n], segments[..n];
    assert ChangesOf(segments) == ChangesOf(front) + last.containsSceneChanges;
    assert last.containsSceneChanges == Within(md.sceneChanges, last.startFrame, last.endFrame);
    if n == 0 {
      assert ChangesOf(front) == [] && [] + last.containsSceneChanges == last.containsSceneChanges;
    } else {
      ChangesJoin(md, front);
      FramesGrow(front);
      assert segments[n - 1 + 1].startFrame == segments[n - 1].endFrame + 1;
      WithinSplit(md.sceneChanges, segments[0].startFrame, front[n - 1].endFrame, last.endFrame);
    }
  }

  /** The total of a per-frame map over frames `from` to `to - 1`. */
  function SpanTotal(m: seq<real>): (nat, nat) -> real {
    (from: nat, to: nat) => if from <= to then Total(Slice(m, from, to)) else 0.0
  }

  /** The sum of `f` over the frames of each segment. */
  function SumOver(f: (nat, nat) -> real, segments: seq<Segment>): real {
    if segments == [] then 0.0
    else
      var last := segments[|segments| - 1];
      SumOver(f, segments[..|segments| - 1]) + f(last.startFrame, last.endFrame + 1)
  }

  lemma SegmentWeighsBack(md: VideoMetadata, s: Segment)
    requires s == BuildSegment(s.id, s.startFrame, s.endFrame, s.startTimestamp, s.endTimestamp, md)
    requires s.startFrame <= s.endFrame
    ensures Contribution(md, s) == SpanTotal(md.complexityMap)(s.startFrame, s.endFrame + 1)
  {
    AverageWeighted(Slice(md.complexityMap, s.startFrame, s.endFrame + 1));
  }

  lemma {:induction false} AveragesWeighBack(md: VideoMetadata, f: (nat, nat) -> real, segments: seq<Segment>)
    requires forall k :: 0 <= k < |segments| ==>
               Contribution(md, segments[k]) == f(segments[k].startFrame, segments[k].endFrame + 1)
    ensures WeightedComplexity(md, segments) == SumOver(f, segments)
    decreases |segments|
  {
    if segments != [] {
      AveragesWeighBack(md, f, segments[..|segments| - 1]);
    }
  }

  ghost predicate Additive(f: (nat, nat) -> real) {
    forall a: nat, b: nat, c: nat {:trigger f(a, b), f(b, c)} :: a <= b <= c ==> f(a, c) == f(a, b) + f(b, c)
  }

  lemma SpanTotalAdditive(m: seq<real>)
    ensures Additive(SpanTotal(m))
  {
    forall a: nat, b: nat, c: nat | a <= b <= c
      ensures SpanTotal(m)(a, c) == SpanTotal(m)(a, b) + SpanTotal(m)(b, c)
    {
      TotalAppend(Slice(m, a, b), Slice(m, b, c));
      assert Slice(m, a, c) == Slice(m, a, b) + Slice(m, b, c);
    }
  }

  /** What adds up frame by frame adds up over contiguous segments. */
  lemma {:induction false} SumsJoin(f: (nat, nat) -> real, segments: seq<Segment>)
    requires segments != [] && Contiguous(segments) && Additive(f)
    ensures SumOver(f, segments) == f(segments[0].startFrame, segments[|segments| - 1].endFrame + 1)
    decreases |segments|
  {
    var n := |segments| - 1;
    var last, front := segments[n], segments[..n];
    if n > 0 {
      SumsJoin(f, front);
      FramesGrow(front);
      assert segments[n - 1 + 1].startFrame == segments[n - 1].endFrame + 1;
    } else {
      assert SumOver(f, front) == 0.0;
    }
  }

  /** Weighted back, the averages of contiguous segments give the map's total over all their frames. */
  lemma ComplexityConserved(md: VideoMetadata, segments: seq<Segment>)
    requires segments != [] && Contiguous(segments) && Built(md, segments)
    ensures WeightedComplexity(md, segments)
         == SpanTotal(md.complexityMap)(segments[0].startFrame, segments[|segments| - 1].endFrame + 1)
  {
    var f := SpanTotal(md.complexityMap);
    forall k | 0 <= k < |segments|
      ensures Contribution(md, segments[k]) == f(segments[k].startFrame, segments[k].endFrame + 1)
    {
      SegmentWeighsBack(md, segments[k]);
    }
    AveragesWeighBack(md, f, segments);
    SpanTotalAdditive(md.complexityMap);
    SumsJoin(f, segments);
  }

  lemma {:induction false} DurationsAddUp(segments: seq<Segment>)
    requires segments != [] && Contiguous(segments)
    ensures DurationOf(segments) == segments[|segments| - 1].endTimestamp - segments[0].startTimestamp
    decreases |segments|
  {
    var n := |segments| - 1;
    if n > 0 {
      DurationsAddUp(segments[..n]);
      assert segments[n - 1 + 1].startTimestamp == segments[n - 1].endTimestamp;
    } else {
      assert DurationOf(segments[..n]) == 0.0;
    }
  }

  /** Contiguous segments of frames 0 to n-1 carry all that the video has for those frames. */
  lemma WholeVideoConserved(md: VideoMetadata, segments: seq<Segment>)
    requires segments != [] && Contiguous(segments) && Built(md, segments) && md.totalFrames > 0
    requires segments[0].startFrame == 0 && segments[|segments| - 1].endFrame == md.totalFrames - 1
    requires |md.complexityMap| <= md.totalFrames && SortedChanges(md)
    requires forall i :: 0 <= i < |md.sceneChanges| ==> md.sceneChanges[i] < md.totalFrames
    ensures ChangesOf(segments) == md.sceneChanges
    ensures WeightedComplexity(md, segments) == Total(md.complexityMap)
  {
    ChangesJoin(md, segments);
    AllWithin(md.sceneChanges, 0, md.totalFrames - 1);
    ComplexityConserved(md, segments);
    assert Slice(md.complexityMap, 0, md.totalFrames) == md.complexityMap;
  }

  /**
   When no tail is dropped and the video starts with a keyframe, the segments' scene changes
   joined are the video's, their averages weighted are the map's total, and their durations
   add up to the time after the first keyframe.
   */
  lemma SegmentsConserve(md: VideoMetadata, target: nat)
    requires Sound(md, target) && !LosesTail(md, target)
    requires md.keyframePositions[0] == 0 && |md.complexityMap| <= md.totalFrames && SortedChanges(md)
    requires forall i :: 0 <= i < |md.sceneChanges| ==> md.sceneChanges[i] < md.totalFrames
    ensures ChangesOf(Segments(md, target)) == md.sceneChanges
    ensures WeightedComplexity(md, Segments(md, target)) == Total(md.complexityMap)
    ensures DurationOf(Segments(md, target)) == md.durationSecs - md.keyframeTimestamps[0]
  {
    SegmentsTile(md, target);
    SegmentsContiguous(md, target);
    LastSegmentEnds(md, target);
    WholeVideoConserved(md, Segments(md, target));
    DurationsAddUp(Segments(md, target));
  }
}
