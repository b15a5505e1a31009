/** The two passes over a video's packets (cluster/src/media.rs): keyframes, then groups of pictures. */
module Gops {
  import opened Collections
  import S = Segmenter

  datatype Packet = Packet(ptsTime: real, size: nat, isKey: bool)

  datatype GopStats = GopStats(
    startFrame: nat, endFrame: nat, startTime: real, endTime: real, sizeBytes: nat, bitrateBps: real)

  // ----- first pass -----

  /** The packets marked as keyframes among the first `n`, by index. */
  function Keys(packets: seq<Packet>, n: nat): seq<nat>
    requires n <= |packets|
  {
    if n == 0 then [] else Keys(packets, n - 1) + (if packets[n - 1].isKey then [n - 1] else [])
  }

  /** The positions kept for the first `n` packets: frame 0, and the keyframes after it. */
  function Positions(packets: seq<Packet>, n: nat): (positions: seq<nat>)
    requires n <= |packets|
    ensures |positions| >= 1
  {
    if n <= 1 then [0] else Positions(packets, n - 1) + (if packets[n - 1].isKey then [n - 1] else [])
  }

  function TimeAt(packets: seq<Packet>, k: nat): real {
    if k < |packets| && packets[k].isKey then packets[k].ptsTime else 0.0
  }

  /** Frame 0 is inserted where it is not marked. */
  function WithZero(keys: seq<nat>): seq<nat> { if keys == [] || keys[0] != 0 then [0] + keys else keys }

  lemma WithZeroAppend(keys: seq<nat>, k: nat)
    requires k > 0
    ensures WithZero(keys + [k]) == WithZero(keys) + [k]
  {
    assert (keys + [k])[0] == if keys == [] then k else keys[0];
    assert [0] + (keys + [k]) == [0] + keys + [k];
  }

  /** Inserting frame 0 gives the kept positions. */
  lemma {:induction false} PositionsFromKeys(packets: seq<Packet>, n: nat)
    requires n <= |packets|
    ensures Positions(packets, n) == WithZero(Keys(packets, n))
  {
    if n > 1 {
      PositionsFromKeys(packets, n - 1);
      var keys := Keys(packets, n - 1);
      if packets[n - 1].isKey {
        WithZeroAppend(keys, n - 1);
      } else {
        assert Keys(packets, n) == keys + [] == keys;
        assert Positions(packets, n) == Positions(packets, n - 1) + [] == Positions(packets, n - 1);
      }
    } else if n == 1 {
      assert Keys(packets, 0) == [];
      assert Keys(packets, 1) == [] + (if packets[0].isKey then [0] else []);
    }
  }

  /** Frame 0 and the frames marked as keyframes are kept, and no other. */
  lemma {:induction false} PositionsExact(packets: seq<Packet>, n: nat)
    requires n <= |packets|
    ensures forall f: nat :: f in Positions(packets, n) <==> f == 0 || (f < n && packets[f].isKey)
  {
    if n > 1 {
      PositionsExact(packets, n - 1);
    }
  }

  method KeyframePass(packets: seq<Packet>) returns (positions: seq<nat>, timestamps: seq<real>)
    ensures positions == Positions(packets, |packets|)
    ensures |timestamps| == |positions|
    ensures forall k :: 0 <= k < |positions| ==> timestamps[k] == TimeAt(packets, positions[k])
    ensures Increasing(positions) && forall f: nat :: f in positions <==> f == 0 || (f < |packets| && packets[f].isKey)
    ensures forall k :: 0 <= k < |positions| ==>
              timestamps[k] == if positions[k] < |packets| && packets[positions[k]].isKey then packets[positions[k]].ptsTime else 0.0
  {
    PositionsExact(packets, |packets|);
    PositionsIncrease(packets, |packets|);
    positions, timestamps := [], [];
    var frameIndex := 0;
    while frameIndex < |packets|
      invariant 0 <= frameIndex <= |packets| && positions == Keys(packets, frameIndex)
      invariant |timestamps| == |positions|
      invariant forall k :: 0 <= k < |positions| ==> timestamps[k] == TimeAt(packets, positions[k])
      invariant frameIndex > 0 && packets[0].isKey ==> positions != [] && positions[0] == 0
    {
      if packets[frameIndex].isKey {
        positions := positions + [frameIndex];
        timestamps := timestamps + [packets[frameIndex].ptsTime];
      }
      frameIndex := frameIndex + 1;
    }
    PositionsFromKeys(packets, |packets|);
    if positions == [] || positions[0] != 0 {
      positions := [0] + positions;
      timestamps := [0.0] + timestamps;
    }
  }

  // ----- second pass -----

  /** Bytes of the packets `lo` to `hi - 1`. */
  function Bytes(packets: seq<Packet>, lo: nat, hi: nat): nat
    requires lo <= hi <= |packets|
    decreases hi
  {
    if lo == hi then 0 else Bytes(packets, lo, hi - 1) + packets[hi - 1].size
  }

  function Bitrate(size: nat, duration: real): real {
    if duration > 0.001 then size as real * 8.0 / duration else 0.0
  }

  /** The group over frames `first` to `last`; the very first one is timed from zero. */
  function Gop(packets: seq<Packet>, first: nat, last: nat): GopStats
    requires first <= last < |packets|
  {
    var start := if first == 0 then 0.0 else packets[first].ptsTime;
    var size := Bytes(packets, first, last + 1);
    GopStats(first, last, start, packets[last].ptsTime, size, Bitrate(size, packets[last].ptsTime - start))
  }

  /** Where the group that is open after `n` packets started. */
  function OpenStart(packets: seq<Packet>, n: nat): (start: nat)
    requires n <= |packets|
    ensures if n == 0 then start == 0 else start < n
  {
    if n <= 1 then 0 else if packets[n - 1].isKey then n - 1 else OpenStart(packets, n - 1)
  }

  /** The groups that the first `n` packets close: each keyframe closes the one before it. */
  function Closed(packets: seq<Packet>, n: nat): seq<GopStats>
    requires n <= |packets|
  {
    if n <= 1 then []
    else Closed(packets, n - 1)
         + (if packets[n - 1].isKey then [Gop(packets, OpenStart(packets, n - 1), n - 2)] else [])
  }

  function Groups(packets: seq<Packet>): seq<GopStats> {
    if packets == [] then []
    else Closed(packets, |packets|) + [Gop(packets, OpenStart(packets, |packets|), |packets| - 1)]
  }

  method GopPass(packets: seq<Packet>) returns (gops: seq<GopStats>)
    ensures gops == Groups(packets)
  {
    gops := [];
    var gopStartFrame, gopStartTime, gopSize := 0, 0.0, 0;
    var i := 0;
    while i < |packets|
      invariant 0 <= i <= |packets| && gops == Closed(packets, i)
      invariant gopStartFrame == OpenStart(packets, i)
      invariant gopStartTime == if gopStartFrame == 0 then 0.0 else packets[gopStartFrame].ptsTime
      invariant gopStartFrame <= i
      invariant gopSize == Bytes(packets, gopStartFrame, i)
    {
      if packets[i].isKey && i > 0 {
        gops := gops + [CloseGop(gopStartFrame, i - 1, gopStartTime, packets[i - 1].ptsTime, gopSize)];
        gopStartFrame, gopStartTime, gopSize := i, packets[i].ptsTime, 0;
      }
      gopSize := gopSize + packets[i].size;
      i := i + 1;
    }
    if packets != [] {
      var last := |packets| - 1;
      gops := gops + [CloseGop(gopStartFrame, last, gopStartTime, packets[last].ptsTime, gopSize)];
    }
  }

  function CloseGop(first: nat, last: nat, startTime: real, endTime: real, size: nat): GopStats {
    GopStats(first, last, startTime, endTime, size, Bitrate(size, endTime - startTime))
  }

  // ----- the passes agree -----

  function StartFrames(gops: seq<GopStats>): seq<nat> {
    seq(|gops|, k requires 0 <= k < |gops| => gops[k].startFrame)
  }

  lemma {:induction false} ClosedStarts(packets: seq<Packet>, n: nat)
    requires 1 <= n <= |packets|
    ensures Positions(packets, n) == StartFrames(Closed(packets, n)) + [OpenStart(packets, n)]
  {
    if n > 1 {
      ClosedStarts(packets, n - 1);
      if packets[n - 1].isKey {
        var g := Gop(packets, OpenStart(packets, n - 1), n - 2);
        assert StartFrames(Closed(packets, n - 1) + [g]) == StartFrames(Closed(packets, n - 1)) + [g.startFrame];
      }
    }
  }

  /** For a video with packets, and only then, groups start exactly at the kept positions. */
  lemma PassesAgree(packets: seq<Packet>)
    ensures StartFrames(Groups(packets)) == Positions(packets, |packets|) <==> packets != []
  {
    if packets != [] {
      var n := |packets|;
      ClosedStarts(packets, n);
      var g := Gop(packets, OpenStart(packets, n), n - 1);
      assert StartFrames(Closed(packets, n) + [g]) == StartFrames(Closed(packets, n)) + [g.startFrame];
    } else {
      assert |StartFrames(Groups(packets))| == 0;
    }
  }

  /** One group: it starts at frame 0 or at a keyframe, and no later frame of it is one. */
  ghost predicate OneGop(packets: seq<Packet>, g: GopStats) {
    && g.startFrame <= g.endFrame < |packets| && g == Gop(packets, g.startFrame, g.endFrame)
    && (g.startFrame == 0 || packets[g.startFrame].isKey)
    && forall f :: g.startFrame < f <= g.endFrame ==> !packets[f].isKey
  }

  /** The groups follow one another from frame 0 up to, but not including, frame `end`. */
  ghost predicate Tile(packets: seq<Packet>, gops: seq<GopStats>, end: nat) {
    && (forall k :: 0 <= k < |gops| ==> OneGop(packets, gops[k]))
    && (forall k :: 0 < k < |gops| ==> gops[k].startFrame == gops[k - 1].endFrame + 1)
    && (if gops == [] then end == 0 else gops[0].startFrame == 0 && gops[|gops| - 1].endFrame + 1 == end)
  }

  lemma TileOneMore(packets: seq<Packet>, gops: seq<GopStats>, first: nat, last: nat)
    requires Tile(packets, gops, first) && first <= last < |packets| && OneGop(packets, Gop(packets, first, last))
    ensures Tile(packets, gops + [Gop(packets, first, last)], last + 1)
  {
  }

  lemma {:induction false} OpenHasNoKey(packets: seq<Packet>, n: nat)
    requires 1 <= n <= |packets|
    ensures OneGop(packets, Gop(packets, OpenStart(packets, n), n - 1))
  {
    if n > 1 && !packets[n - 1].isKey {
      OpenHasNoKey(packets, n - 1);
      forall f | OpenStart(packets, n) < f <= n - 1
        ensures !packets[f].isKey
      {
        assert f <= n - 2 ==> !packets[f].isKey;
      }
    }
  }

  lemma {:induction false} ClosedTile(packets: seq<Packet>, n: nat)
    requires 1 <= n <= |packets|
    ensures Tile(packets, Closed(packets, n), OpenStart(packets, n))
    decreases n, 0
  {
    if n > 1 && packets[n - 1].isKey {
      TileThenOpen(packets, n - 1, Closed(packets, n - 1), OpenStart(packets, n - 1));
    } else if n > 1 {
      ClosedTile(packets, n - 1);
      assert Closed(packets, n) == Closed(packets, n - 1) + [] == Closed(packets, n - 1);
    }
  }

  lemma {:induction false} TileThenOpen(packets: seq<Packet>, n: nat, closed: seq<GopStats>, start: nat)
    requires 1 <= n <= |packets| && closed == Closed(packets, n) && start == OpenStart(packets, n)
    ensures start < n && Tile(packets, closed + [Gop(packets, start, n - 1)], n)
    decreases n, 1
  {
    ClosedTile(packets, n);
    OpenHasNoKey(packets, n);
    TileOneMore(packets, closed, start, n - 1);
  }

  /** Groups tile all frames; each starts with a keyframe (or frame 0) and holds no other. */
  lemma GopsTile(packets: seq<Packet>)
    ensures Tile(packets, Groups(packets), |packets|)
  {
    if packets != [] {
      var n := |packets|;
      TileThenOpen(packets, n, Closed(packets, n), OpenStart(packets, n));
    }
  }

  function GopBytes(gops: seq<GopStats>): nat {
    if gops == [] then 0 else GopBytes(gops[..|gops| - 1]) + gops[|gops| - 1].sizeBytes
  }

  lemma {:induction false} BytesSplit(packets: seq<Packet>, a: nat, b: nat, c: nat)
    requires a <= b <= c <= |packets|
    ensures Bytes(packets, a, c) == Bytes(packets, a, b) + Bytes(packets, b, c)
    decreases c - b
  {
    if b < c {
      BytesSplit(packets, a, b, c - 1);
    }
  }

  lemma {:induction false} TiledBytes(packets: seq<Packet>, gops: seq<GopStats>, end: nat)
    requires Tile(packets, gops, end) && end <= |packets|
    ensures GopBytes(gops) == Bytes(packets, 0, end)
    decreases |gops|
  {
    if gops != [] {
      var g, front := gops[|gops| - 1], gops[..|gops| - 1];
      assert OneGop(packets, g);
      assert Tile(packets, front, g.startFrame);
      TiledBytes(packets, front, g.startFrame);
      BytesSplit(packets, 0, g.startFrame, end);
    }
  }

  function TotalSize(packets: seq<Packet>): nat {
    if packets == [] then 0 else packets[0].size + TotalSize(packets[1..])
  }

  lemma {:induction false} TotalSizeAppend(a: seq<Packet>, p: Packet)
    ensures TotalSize(a + [p]) == TotalSize(a) + p.size
  {
    if a == [] {
      assert [] + [p] == [p] && TotalSize([p]) == p.size + TotalSize([]);
    } else {
      TotalSizeAppend(a[1..], p);
      assert (a + [p])[1..] == a[1..] + [p];
    }
  }

  lemma {:induction false} BytesAreSizes(packets: seq<Packet>, lo: nat, hi: nat)
    requires lo <= hi <= |packets|
    ensures Bytes(packets, lo, hi) == TotalSize(packets[lo..hi])
    decreases hi
  {
    if lo < hi {
      BytesAreSizes(packets, lo, hi - 1);
      TotalSizeAppend(packets[lo..hi - 1], packets[hi - 1]);
      assert packets[lo..hi] == packets[lo..hi - 1] + [packets[hi - 1]];
    }
  }

  /** The rate times the duration is the size in bits; at most a millisecond has rate zero. */
  predicate IsRate(rate: real, size: nat, duration: real) {
    if duration > 0.001 then rate * duration == 8.0 * size as real else rate == 0.0
  }

  lemma RateTimesDuration(size: nat, duration: real)
    ensures IsRate(Bitrate(size, duration), size, duration)
  {
    var bits := size as real * 8.0;
    if duration > 0.001 {
      assert bits / duration * duration == bits;
    }
  }

  /**
   Each group holds just its own packets' bytes, runs from its first packet's time (the very
   first from zero) to its last packet's, and its bitrate times its duration is its size in
   bits; a group of at most a millisecond has bitrate zero.
   */
  lemma GroupIsExact(packets: seq<Packet>, g: GopStats)
    requires g in Groups(packets)
    ensures g.startFrame <= g.endFrame < |packets| && g.sizeBytes == TotalSize(packets[g.startFrame..g.endFrame + 1])
    ensures g.startTime == if g.startFrame == 0 then 0.0 else packets[g.startFrame].ptsTime
    ensures g.endTime == packets[g.endFrame].ptsTime
    ensures IsRate(g.bitrateBps, g.sizeBytes, g.endTime - g.startTime)
  {
    GopsTile(packets);
    var k :| 0 <= k < |Groups(packets)| && Groups(packets)[k] == g;
    assert OneGop(packets, Groups(packets)[k]);
    BytesAreSizes(packets, g.startFrame, g.endFrame + 1);
    RateTimesDuration(g.sizeBytes, g.endTime - g.startTime);
  }

  /** No byte is counted twice or dropped. */
  lemma BytesConserved(packets: seq<Packet>)
    ensures GopBytes(Groups(packets)) == TotalSize(packets)
  {
    GopsTile(packets);
    TiledBytes(packets, Groups(packets), |packets|);
    BytesAreSizes(packets, 0, |packets|);
    assert packets[0..|packets|] == packets;
  }

  // ----- what the segmenter relies on -----

  lemma {:induction false} PositionsIncrease(packets: seq<Packet>, n: nat)
    requires n <= |packets|
    ensures var p := Positions(packets, n);
            && Increasing(p) && p[0] == 0
            && forall k :: 0 <= k < |p| ==> p[k] < if n == 0 then 1 else n
  {
    if n > 1 {
      PositionsIncrease(packets, n - 1);
    }
  }

  /** The kept positions increase from 0, and are frames of any video with as many frames as packets. */
  lemma SegmenterReady(packets: seq<Packet>, timestamps: seq<real>, md: S.VideoMetadata)
    requires |timestamps| == |Positions(packets, |packets|)|
    requires md.keyframePositions == Positions(packets, |packets|) && md.keyframeTimestamps == timestamps
    ensures S.Usable(md) && Increasing(md.keyframePositions) && md.keyframePositions[0] == 0
    ensures packets != [] && |packets| <= md.totalFrames ==>
              forall i :: 0 <= i < |md.keyframePositions| ==> md.keyframePositions[i] < md.totalFrames
  {
    PositionsIncrease(packets, |packets|);
  }
}
