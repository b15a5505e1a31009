/** The HLS media playlist of the finished segments (coordinator/src/main.rs). */
module Playlist {
  import opened Collections
  import opened Segmenter
  import opened SegmentLaws

  datatype WorkerResult = WorkerResult(segmentId: nat, outputPath: string)

  /** A playlist entry: its EXTINF duration in millionths of a second, as written, and its file. */
  datatype Entry = Entry(micros: int, file: string)

  datatype MediaPlaylist = MediaPlaylist(targetDuration: nat, entries: seq<Entry>)

  function Ceil(x: real): int { -((-x).Floor) }

  /** To the nearest integer. */
  function Round(x: real): int { (x + 0.5).Floor }

  function Longest(segments: seq<Segment>): (d: real)
    ensures d >= 0.0 && forall s :: s in segments ==> Duration(s) <= d
  {
    if segments == [] then 0.0
    else
      var before, last := Longest(segments[..|segments| - 1]), Duration(segments[|segments| - 1]);
      assert segments == segments[..|segments| - 1] + [segments[|segments| - 1]];
      if before >= last then before else last
  }

  /** The duration of the first segment with this id, or zero. */
  function DurationById(segments: seq<Segment>, id: nat): real {
    if segments == [] then 0.0
    else if segments[0].id == id then Duration(segments[0])
    else DurationById(segments[1..], id)
  }

  function EntryOf(segments: seq<Segment>, r: WorkerResult): Entry {
    Entry(Round(DurationById(segments, r.segmentId) * 1000000.0), r.outputPath)
  }

  function ByIdOrder(): (WorkerResult, WorkerResult) -> bool {
    (a: WorkerResult, b: WorkerResult) => a.segmentId <= b.segmentId
  }

  method GenerateMediaPlaylist(results: seq<WorkerResult>, segments: seq<Segment>) returns (p: MediaPlaylist)
    ensures p.targetDuration == Ceil(Longest(segments))
    ensures |p.entries| == |results| && forall k :: 0 <= k < |results| ==> p.entries[k] == EntryOf(segments, results[k])
    ensures forall s :: s in segments ==> s.endTimestamp - s.startTimestamp <= p.targetDuration as real
    ensures p.targetDuration > 0 ==>
              exists s :: s in segments && s.endTimestamp - s.startTimestamp > (p.targetDuration - 1) as real
  {
    TargetIsLeast(segments);
    var longest, i := 0.0, 0;
    while i < |segments|
      invariant 0 <= i <= |segments| && longest == Longest(segments[..i])
    {
      var d := segments[i].endTimestamp - segments[i].startTimestamp;
      assert segments[..i + 1][..i] == segments[..i];
      longest := if longest >= d then longest else d;
      i := i + 1;
    }
    assert segments[..i] == segments;
    var entries, k := [], 0;
    while k < |results|
      invariant 0 <= k <= |results| == |entries| + (|results| - k)
      invariant forall m :: 0 <= m < k ==> entries[m] == EntryOf(segments, results[m])
    {
      var duration := 0.0;
      var j := 0;
      while j < |segments| && segments[j].id != results[k].segmentId
        invariant 0 <= j <= |segments|
        invariant DurationById(segments, results[k].segmentId) == DurationById(segments[j..], results[k].segmentId)
      {
        assert segments[j..][1..] == segments[j + 1..];
        j := j + 1;
      }
      if j < |segments| {
        duration := segments[j].endTimestamp - segments[j].startTimestamp;
      }
      entries := entries + [Entry(Round(duration * 1000000.0), results[k].outputPath)];
      k := k + 1;
    }
    p := MediaPlaylist(Ceil(longest), entries);
  }

  lemma {:induction false} LongestIsSome(segments: seq<Segment>)
    ensures Longest(segments) > 0.0 ==> exists s :: s in segments && Duration(s) == Longest(segments)
    decreases |segments|
  {
    if segments != [] {
      var front, last := segments[..|segments| - 1], segments[|segments| - 1];
      assert segments == front + [last];
      LongestIsSome(front);
      assert last in segments && forall s :: s in front ==> s in segments;
    }
  }

  /** The target duration is the least whole number of seconds that no segment exceeds. */
  lemma TargetIsLeast(segments: seq<Segment>)
    ensures Ceil(Longest(segments)) >= 0
    ensures forall s :: s in segments ==> s.endTimestamp - s.startTimestamp <= Ceil(Longest(segments)) as real
    ensures Ceil(Longest(segments)) > 0 ==>
              exists s :: s in segments && s.endTimestamp - s.startTimestamp > (Ceil(Longest(segments)) - 1) as real
  {
    LongestIsSome(segments);
    var d := Longest(segments);
    assert (Ceil(d) - 1) as real < d <= Ceil(d) as real;
    if Ceil(d) > 0 {
      var s :| s in segments && Duration(s) == d;
      assert s.endTimestamp - s.startTimestamp > (Ceil(d) - 1) as real;
    }
  }

  // ----- durations as written -----

  predicate FirstWithId(segments: seq<Segment>, k: int, id: nat) {
    0 <= k < |segments| && segments[k].id == id && forall m :: 0 <= m < k ==> segments[m].id != id
  }

  /** An entry names its result's file and writes its segment's duration to the nearest microsecond; zero for an unknown id. */
  lemma {:induction false} EntryIsExact(segments: seq<Segment>, r: WorkerResult)
    ensures EntryOf(segments, r).file == r.outputPath
    ensures forall k :: FirstWithId(segments, k, r.segmentId) ==>
              var exact := (segments[k].endTimestamp - segments[k].startTimestamp) * 1000000.0;
              -0.5 <= EntryOf(segments, r).micros as real - exact <= 0.5
    ensures (forall s :: s in segments ==> s.id != r.segmentId) ==> EntryOf(segments, r).micros == 0
  {
    DurationFound(segments, r.segmentId);
  }

  lemma {:induction false} DurationFound(segments: seq<Segment>, id: nat)
    ensures forall k :: FirstWithId(segments, k, id) ==>
              DurationById(segments, id) == segments[k].endTimestamp - segments[k].startTimestamp
    ensures (forall s :: s in segments ==> s.id != id) ==> DurationById(segments, id) == 0.0
  {
    if segments != [] && segments[0].id != id {
      DurationFound(segments[1..], id);
      forall k | FirstWithId(segments, k, id)
        ensures DurationById(segments, id) == segments[k].endTimestamp - segments[k].startTimestamp
      {
        assert FirstWithId(segments[1..], k - 1, id);
      }
    }
  }

  // ----- durations never exceed the target -----

  lemma {:induction false} DurationBounded(segments: seq<Segment>, id: nat)
    ensures DurationById(segments, id) <= Longest(segments)
  {
    if segments != [] && segments[0].id != id {
      DurationBounded(segments[1..], id);
      LongestGrows(segments);
    }
  }

  lemma {:induction false} LongestGrows(segments: seq<Segment>)
    requires segments != []
    ensures Longest(segments[1..]) <= Longest(segments)
    decreases |segments|
  {
    var n := |segments| - 1;
    if n > 0 {
      LongestGrows(segments[..n]);
      assert segments[1..][..n - 1] == segments[..n][1..];
    }
  }

  /**
   Every duration as written, rounded to the nearest integer, is at most the target duration:
   section 4.3.3.1 of RFC 8216.
   */
  lemma WithinTargetDuration(segments: seq<Segment>, r: WorkerResult)
    ensures Round(EntryOf(segments, r).micros as real / 1000000.0) <= Ceil(Longest(segments))
  {
    var d, target := DurationById(segments, r.segmentId), Ceil(Longest(segments));
    DurationBounded(segments, r.segmentId);
    assert d <= target as real;
    assert d * 1000000.0 <= (target * 1000000) as real;
    assert EntryOf(segments, r).micros <= target * 1000000;
  }

  // ----- the whole playlist -----

  ghost predicate OneEach(results: seq<WorkerResult>, n: nat) {
    && |results| == n
    && (forall i :: 0 <= i < n ==> results[i].segmentId < n)
    && (forall i, j :: 0 <= i < j < n ==> results[i].segmentId != results[j].segmentId)
  }

  function SumDurations(segments: seq<Segment>, results: seq<WorkerResult>): real {
    if results == [] then 0.0
    else SumDurations(segments, results[..|results| - 1]) + DurationById(segments, results[|results| - 1].segmentId)
  }

  lemma {:induction false} DurationAt(segments: seq<Segment>, from: nat, k: nat)
    requires k < |segments| && forall i :: 0 <= i < |segments| ==> segments[i].id == from + i
    ensures DurationById(segments, from + k) == Duration(segments[k])
  {
    if k > 0 {
      DurationAt(segments[1..], from + 1, k - 1);
    }
  }

  lemma {:induction false} DurationsInOrder(segments: seq<Segment>, results: seq<WorkerResult>)
    requires |results| <= |segments| && forall i :: 0 <= i < |segments| ==> segments[i].id == i
    requires forall i :: 0 <= i < |results| ==> results[i].segmentId == i
    ensures SumDurations(segments, results) == DurationOf(segments[..|results|])
    decreases |results|
  {
    if results != [] {
      var n := |results| - 1;
      DurationsInOrder(segments, results[..n]);
      DurationAt(segments, 0, n);
      assert segments[..n + 1][..n] == segments[..n];
    }
  }

  /**
   Whatever the order in which segments finish, the playlist lists segment i at position i,
   and the durations add up to the time from the first keyframe to the end, unless the
   one-frame tail is lost: then to the last keyframe.
   */
  lemma PlaylistCoversVideo(md: VideoMetadata, target: nat, results: seq<WorkerResult>)
    requires Sound(md, target) && OneEach(results, |Segments(md, target)|)
    ensures var sorted := Sort(results, ByIdOrder());
            && |sorted| == |results| && (forall i :: 0 <= i < |sorted| ==> sorted[i].segmentId == i)
            && SumDurations(Segments(md, target), sorted)
            == (if LosesTail(md, target) then md.keyframeTimestamps[|md.keyframePositions| - 1] else md.durationSecs)
               - md.keyframeTimestamps[0]
  {
    var segments := Segments(md, target);
    SortByKey(results, (r: WorkerResult) => r.segmentId, ByIdOrder());
    SegmentsTile(md, target);
    SegmentsContiguous(md, target);
    LastSegmentEnds(md, target);
    DurationsInOrder(segments, Sort(results, ByIdOrder()));
    assert segments[..|segments|] == segments;
    DurationsAddUp(segments);
  }
}
