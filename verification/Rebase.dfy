/**
 Stream-copying a pre-cut segment onto a time line that starts at zero (worker/src/main.rs),
 up to the final conversion into the output's time base.
 */
module Rebase {
  import opened Common

  /** Seconds per tick, as a fraction. */
  datatype TimeBase = TimeBase(num: int, den: int)

  predicate Positive(tb: TimeBase) { tb.num > 0 && tb.den > 0 }

  datatype Packet = Packet(stream: nat, pts: Option<int>, dts: Option<int>, payload: nat)

  datatype CopyError = NeedsPresplit

  /** `x` times a fraction. */
  function Scale(x: real, num: real, den: real): real
    requires den != 0.0
  {
    x * num / den
  }

  function Seconds(ts: int, tb: TimeBase): real
    requires Positive(tb)
  {
    Scale(ts as real, tb.num as real, tb.den as real)
  }

  /** To the nearest integer, halves away from zero. */
  function Round(x: real): int { if x >= 0.0 then (x + 0.5).Floor else -((-x + 0.5).Floor) }

  function OriginTicks(originSecs: real, tb: TimeBase): int
    requires Positive(tb)
  {
    Round(Scale(originSecs, tb.den as real, tb.num as real))
  }

  function RebaseTs(ts: int, origin: int): Option<int> { if ts - origin >= 0 then Some(ts - origin) else None }

  /** The instant that output time zero stands for; a stream may not know its start. */
  function VideoOriginSecs(start: Option<int>, tb: TimeBase, presplit: bool, segmentStart: real): real
    requires Positive(tb)
  {
    if !presplit then segmentStart else if start.None? then 0.0 else Seconds(start.value, tb)
  }

  function ShiftDts(p: Packet, origin: int): Option<int> {
    if p.dts.Some? then Some(p.dts.value - origin) else None
  }

  /** A video packet without a timestamp, or from before the origin, is dropped. */
  function CopyVideo(p: Packet, origin: int): Option<Packet> {
    if p.pts.None? || RebaseTs(p.pts.value, origin).None? then None
    else Some(Packet(0, RebaseTs(p.pts.value, origin), ShiftDts(p, origin), p.payload))
  }

  /** Where a segment is cut from the full source, audio outside it is dropped. */
  datatype Window = Whole | Cut(start: real, end: real)

  predicate Outside(w: Window, secs: real) { w.Cut? && (secs < w.start - 0.001 || secs > w.end + 0.001) }

  /** An audio packet from before the origin is dropped; one without a timestamp is kept. */
  function CopyAudio(p: Packet, tb: TimeBase, out: nat, w: Window, originSecs: real): Option<Packet>
    requires Positive(tb)
  {
    var origin := OriginTicks(originSecs, tb);
    if p.pts.Some? && Outside(w, Seconds(p.pts.value, tb)) then None
    else if p.pts.Some? && RebaseTs(p.pts.value, origin).None? then None
    else Some(Packet(out, if p.pts.Some? then RebaseTs(p.pts.value, origin) else None, ShiftDts(p, origin), p.payload))
  }

  datatype AudioTrack = AudioTrack(index: nat, tb: TimeBase, out: nat)

  /** The streams of the input: its video, and an audio track if it has a usable one. */
  datatype Input = Input(video: nat, videoTb: TimeBase, start: Option<int>, audio: Option<AudioTrack>)

  predicate Usable(i: Input) { Positive(i.videoTb) && (i.audio.Some? ==> Positive(i.audio.value.tb)) }

  function OriginOf(i: Input): real
    requires Usable(i)
  {
    VideoOriginSecs(i.start, i.videoTb, true, 0.0)
  }

  /** What one packet of the input becomes. */
  function CopyPacket(i: Input, p: Packet): Option<Packet>
    requires Usable(i)
  {
    if p.stream == i.video then CopyVideo(p, OriginTicks(OriginOf(i), i.videoTb))
    else if i.audio.Some? && p.stream == i.audio.value.index then
      CopyAudio(p, i.audio.value.tb, i.audio.value.out, Whole, OriginOf(i))
    else None
  }

  function Copied(i: Input, packets: seq<Packet>): seq<Packet>
    requires Usable(i)
  {
    if packets == [] then []
    else
      var q := CopyPacket(i, packets[|packets| - 1]);
      Copied(i, packets[..|packets| - 1]) + (if q.Some? then [q.value] else [])
  }

  /** The video packets that are kept. */
  function KeptVideo(i: Input, packets: seq<Packet>): seq<Packet>
    requires Usable(i)
  {
    if packets == [] then []
    else
      var p := packets[|packets| - 1];
      KeptVideo(i, packets[..|packets| - 1]) + (if p.stream == i.video && CopyPacket(i, p).Some? then [p] else [])
  }

  method CopySegment(i: Input, presplit: bool, packets: seq<Packet>) returns (r: Result<(seq<Packet>, nat), CopyError>)
    requires Usable(i)
    ensures r == if !presplit then Err(NeedsPresplit) else Ok((Copied(i, packets), |KeptVideo(i, packets)|))
  {
    if !presplit {
      return Err(NeedsPresplit);
    }
    var originSecs := VideoOriginSecs(i.start, i.videoTb, true, 0.0);
    var origin := OriginTicks(originSecs, i.videoTb);
    var out, copied, k := [], 0, 0;
    while k < |packets|
      invariant 0 <= k <= |packets|
      invariant out == Copied(i, packets[..k]) && copied == |KeptVideo(i, packets[..k])|
    {
      var packet := packets[k];
      assert packets[..k + 1][..k] == packets[..k];
      k := k + 1;
      if packet.stream == i.video {
        if packet.pts.None? || RebaseTs(packet.pts.value, origin).None? {
          continue;
        }
        out := out + [Packet(0, RebaseTs(packet.pts.value, origin), ShiftDts(packet, origin), packet.payload)];
        copied := copied + 1;
      } else if i.audio.Some? && packet.stream == i.audio.value.index {
        var q := CopyAudio(packet, i.audio.value.tb, i.audio.value.out, Whole, originSecs);
        if q.Some? {
          out := out + [q.value];
        }
      }
    }
    assert packets[..k] == packets;
    return Ok((out, copied));
  }

  // ----- arithmetic -----

  lemma RoundNear(x: real)
    ensures -0.5 <= Round(x) as real - x <= 0.5
  {
  }

  lemma DivUnique(x: real, q: real, d: real)
    requires d > 0.0 && q * d == x
    ensures x / d == q
  {
    var p := x / d;
    assert p * d == x;
    assert (p - q) * d == p * d - q * d == 0.0;
  }

  lemma DivDiff(a: real, b: real, d: real)
    requires d > 0.0
    ensures (a - b) / d == a / d - b / d
  {
    var p, q := a / d, b / d;
    assert p * d == a && q * d == b;
    assert (p - q) * d == p * d - q * d;
    DivUnique(a - b, p - q, d);
  }

  lemma TicksBack(ts: int, tb: TimeBase)
    requires Positive(tb)
    ensures Scale(Seconds(ts, tb), tb.den as real, tb.num as real) == ts as real
  {
    var n, d, t := tb.num as real, tb.den as real, ts as real;
    assert (t * n / d) * d == t * n;
    DivUnique(t * n, t, n);
  }

  // ----- main results -----

  /** A pre-cut video's own start is tick zero exactly, and what is kept is what does not precede it. */
  lemma StartIsZero(i: Input, start: int, p: Packet)
    requires Usable(i) && i.start == Some(start) && p.stream == i.video && p.pts.Some?
    ensures OriginTicks(OriginOf(i), i.videoTb) == start
    ensures CopyPacket(i, p).Some? <==> p.pts.value >= start
    ensures p.pts.value == start ==> CopyPacket(i, p).value.pts == Some(0)
  {
    TicksBack(start, i.videoTb);
    assert OriginTicks(OriginOf(i), i.videoTb) == Round(start as real);
  }

  /** Kept packets keep the gap between presentation and decoding, and are presented at zero or later. */
  lemma GapsKept(i: Input, p: Packet)
    requires Usable(i) && CopyPacket(i, p).Some?
    ensures var q := CopyPacket(i, p).value;
            && q.payload == p.payload
            && (q.pts.Some? <==> p.pts.Some?) && (q.dts.Some? <==> p.dts.Some?)
            && (q.pts.Some? ==> q.pts.value >= 0)
            && (q.pts.Some? && q.dts.Some? ==> q.pts.value - q.dts.value == p.pts.value - p.dts.value)
  {
  }

  /** The original of each packet written, in the order in which they are read. */
  lemma {:induction false} OrderKept(i: Input, packets: seq<Packet>) returns (from: seq<nat>)
    requires Usable(i)
    ensures |from| == |Copied(i, packets)|
    ensures forall k :: 0 <= k < |from| ==> from[k] < |packets| && CopyPacket(i, packets[from[k]]) == Some(Copied(i, packets)[k])
    ensures forall k, m :: 0 <= k < m < |from| ==> from[k] < from[m]
    ensures forall n :: 0 <= n < |packets| && CopyPacket(i, packets[n]).Some? ==> n in from
    decreases |packets|
  {
    if packets == [] {
      from := [];
    } else {
      var front := OrderKept(i, packets[..|packets| - 1]);
      from := front + (if CopyPacket(i, packets[|packets| - 1]).Some? then [|packets| - 1] else []);
    }
  }

  /** Half a tick of the audio track, in seconds. */
  function HalfTick(tb: TimeBase): real
    requires Positive(tb)
  {
    tb.num as real / tb.den as real / 2.0
  }

  /** Rounding the origin to ticks moves it by at most half a tick. */
  lemma OriginNear(originSecs: real, tb: TimeBase)
    requires Positive(tb)
    ensures -HalfTick(tb) <= Seconds(OriginTicks(originSecs, tb), tb) - originSecs <= HalfTick(tb)
  {
    var n, d := tb.num as real, tb.den as real;
    var x := Scale(originSecs, d, n);
    RoundNear(x);
    assert OriginTicks(originSecs, tb) == Round(x);
    NearScaled(OriginTicks(originSecs, tb) as real, x, n, d);
    ThereAndBack(originSecs, n, d);
  }

  lemma ThereAndBack(s: real, n: real, d: real)
    requires n > 0.0 && d > 0.0
    ensures Scale(Scale(s, d, n), n, d) == s
  {
    var x := Scale(s, d, n);
    assert x * n == s * d;
    DivUnique(x * n, s, d);
  }

  lemma NearScaled(o: real, x: real, n: real, d: real)
    requires n > 0.0 && d > 0.0 && -0.5 <= o - x <= 0.5
    ensures -(n / d / 2.0) <= Scale(o, n, d) - Scale(x, n, d) <= n / d / 2.0
  {
    var e, a, b := o - x, o * n, x * n;
    assert e * n == a - b;
    ScaleBound(e, n);
    ScaleDown(a - b, n, d);
    DivDiff(a, b, d);
  }

  lemma ScaleBound(e: real, t: real)
    requires -0.5 <= e <= 0.5 && t > 0.0
    ensures -(t / 2.0) <= e * t <= t / 2.0
  {
    assert (0.5 - e) * t >= 0.0 && (e + 0.5) * t >= 0.0;
  }

  lemma ScaleDown(e: real, n: real, d: real)
    requires d > 0.0 && -(n / 2.0) <= e <= n / 2.0
    ensures -(n / d / 2.0) <= e / d <= n / d / 2.0
  {
    var q, h := e / d, n / d / 2.0;
    assert q * d == e && (n / d) * d == n;
    assert h * d == n / 2.0;
    assert q > h ==> (q - h) * d > 0.0;
    assert q < -h ==> (-h - q) * d > 0.0;
  }

  lemma NoStartNoShift(tb: TimeBase)
    requires Positive(tb)
    ensures OriginTicks(0.0, tb) == 0 && Seconds(0, tb) == 0.0
  {
    assert Scale(0.0, tb.den as real, tb.num as real) == 0.0 / tb.num as real == 0.0;
    assert Scale(0.0, tb.num as real, tb.den as real) == 0.0 / tb.den as real == 0.0;
  }

  /**
   For any two kept packets, audio moves against video by at most half an audio tick; not at
   all if the video stream does not know its start.
   */
  lemma AudioStaysInSync(i: Input, v: Packet, a: Packet)
    requires Usable(i) && i.audio.Some? && i.audio.value.index != i.video
    requires v.stream == i.video && a.stream == i.audio.value.index && a.pts.Some?
    requires CopyPacket(i, v).Some? && CopyPacket(i, a).Some?
    ensures var (tv, ta) := (i.videoTb, i.audio.value.tb);
            var before := Seconds(a.pts.value, ta) - Seconds(v.pts.value, tv);
            var after := Seconds(CopyPacket(i, a).value.pts.value, ta) - Seconds(CopyPacket(i, v).value.pts.value, tv);
            -HalfTick(ta) <= after - before <= HalfTick(ta) && (i.start.None? ==> after == before)
  {
    var tv, ta, secs := i.videoTb, i.audio.value.tb, OriginOf(i);
    OriginNear(secs, ta);
    Shifted(a.pts.value, OriginTicks(secs, ta), ta);
    Shifted(v.pts.value, OriginTicks(secs, tv), tv);
    if i.start.Some? {
      StartIsZero(i, i.start.value, v);
    } else {
      NoStartNoShift(tv);
      NoStartNoShift(ta);
    }
  }

  /** A timestamp's seconds times the ticks per second are its ticks. */
  lemma SecondsExact(ts: int, tb: TimeBase)
    requires Positive(tb)
    ensures Seconds(ts, tb) * tb.den as real == ts as real * tb.num as real
  {
  }

  /**
   Which audio is kept: a packet without a timestamp, and else one that is in the window, with
   a millisecond to spare, and not before the origin, which is rounded to a tick `o` at most
   half a tick off. What is kept moves to the output's audio stream and by `o` ticks.
   */
  lemma AudioKept(tb: TimeBase, out: nat, w: Window, originSecs: real) returns (o: int)
    requires Positive(tb)
    ensures -HalfTick(tb) <= Seconds(o, tb) - originSecs <= HalfTick(tb)
    ensures forall p :: MovesAudio(p, CopyAudio(p, tb, out, w, originSecs), tb, out, w, o)
  {
    o := OriginTicks(originSecs, tb);
    OriginNear(originSecs, tb);
    forall p
      ensures MovesAudio(p, CopyAudio(p, tb, out, w, originSecs), tb, out, w, o)
    {
      OneMoved(p, tb, out, w, originSecs);
    }
  }

  lemma OneMoved(p: Packet, tb: TimeBase, out: nat, w: Window, originSecs: real)
    requires Positive(tb)
    ensures MovesAudio(p, CopyAudio(p, tb, out, w, originSecs), tb, out, w, OriginTicks(originSecs, tb))
  {
  }

  predicate Between(w: Window, secs: real) { w.Cut? ==> w.start - 0.001 <= secs <= w.end + 0.001 }

  predicate MovesAudio(p: Packet, q: Option<Packet>, tb: TimeBase, out: nat, w: Window, o: int)
    requires Positive(tb)
  {
    && (q.Some? <==> p.pts.None? || (p.pts.value >= o && Between(w, Seconds(p.pts.value, tb))))
    && (q.Some? ==>
          && q.value.stream == out && q.value.payload == p.payload
          && q.value.pts == (if p.pts.Some? then Some(p.pts.value - o) else None)
          && q.value.dts == (if p.dts.Some? then Some(p.dts.value - o) else None))
  }

  /**
   What a pre-cut segment's packets become: video goes to stream 0, and is dropped without a
   timestamp; audio goes to the audio stream; anything else is dropped.
   */
  lemma StreamsKept(i: Input, p: Packet)
    requires Usable(i)
    ensures i.start.None? ==> OriginOf(i) == 0.0
    ensures p.stream == i.video ==>
              && (CopyPacket(i, p).Some? ==> p.pts.Some? && CopyPacket(i, p).value.stream == 0)
              && (i.start.None? && p.pts.Some? ==> (CopyPacket(i, p).Some? <==> p.pts.value >= 0))
    ensures p.stream != i.video ==>
              CopyPacket(i, p) == if i.audio.Some? && p.stream == i.audio.value.index
                                  then CopyAudio(p, i.audio.value.tb, i.audio.value.out, Whole, OriginOf(i)) else None
  {
    NoStartNoShift(i.videoTb);
  }

  function CountStream(packets: seq<Packet>, stream: nat): nat {
    if packets == [] then 0
    else CountStream(packets[..|packets| - 1], stream) + if packets[|packets| - 1].stream == stream then 1 else 0
  }

  /** The count returned is of the packets written to the video stream. */
  lemma {:induction false} CountIsWritten(i: Input, packets: seq<Packet>)
    requires Usable(i) && (i.audio.Some? ==> i.audio.value.out != 0)
    ensures |KeptVideo(i, packets)| == CountStream(Copied(i, packets), 0)
    decreases |packets|
  {
    if packets != [] {
      var p, front := packets[|packets| - 1], packets[..|packets| - 1];
      CountIsWritten(i, front);
      StreamsKept(i, p);
      var q := CopyPacket(i, p);
      if q.Some? {
        assert (Copied(i, front) + [q.value])[..|Copied(i, front)|] == Copied(i, front);
      } else {
        assert Copied(i, front) + [] == Copied(i, front);
      }
    }
  }

  lemma Shifted(ts: int, origin: int, tb: TimeBase)
    requires Positive(tb)
    ensures Seconds(ts - origin, tb) == Seconds(ts, tb) - Seconds(origin, tb)
  {
    var n := tb.num as real;
    assert (ts - origin) as real * n == ts as real * n - origin as real * n;
    DivDiff(ts as real * n, origin as real * n, tb.den as real);
  }
}
