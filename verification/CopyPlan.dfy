/** Which segments are stream-copied, and what is recommended (cluster/src/media.rs). */
module CopyPlan {
  import opened Common
  import opened Collections
  import opened Gops

  /** What the plan looks at; `blocked` when the source and target formats differ. */
  datatype Source = Source(width: nat, height: nat, gops: seq<GopStats>, blocked: bool)

  datatype SegmentPlan = SegmentPlan(
    copy: seq<bool>, bitrateRatio: seq<Option<real>>, tolerance: real, targetBitrate: real)

  datatype Recommendation = Recommendation(mode: string, copyableGopFraction: Option<real>)

  // ----- target bitrate -----

  predicate Contains(s: string, part: string)
    decreases |s|
  {
    part <= s || (s != [] && Contains(s[1..], part))
  }

  /** 1.12 to the power `e`. */
  function CrfFactor(e: int): (f: real)
    ensures f > 0.0
    decreases if e < 0 then -e else e
  {
    if e == 0 then 1.0 else if e > 0 then 1.12 * CrfFactor(e - 1) else CrfFactor(e + 1) / 1.12
  }

  function EncoderFactor(e: string): (f: real)
    ensures f > 0.0
  {
    if Contains(e, "videotoolbox") && Contains(e, "hevc") then 1.0
    else if Contains(e, "videotoolbox") then 2.0
    else if Contains(e, "nvenc") && (Contains(e, "hevc") || Contains(e, "av1")) then 0.7
    else if Contains(e, "nvenc") then 1.5
    else if Contains(e, "vaapi") && Contains(e, "hevc") then 0.8
    else if Contains(e, "vaapi") then 1.5
    else if e == "libx265" then 0.5
    else if e == "libsvtav1" then 0.4
    else if e == "libaom-av1" then 0.35
    else 1.0
  }

  /** The bitrate of typical content at quality 23. */
  function BaseBitrate(pixels: nat): (b: real)
    ensures b > 0.0
  {
    if pixels >= 3840 * 2160 then 40000000.0
    else if pixels >= 1920 * 1080 then 8000000.0
    else if pixels >= 1280 * 720 then 4000000.0
    else 2000000.0
  }

  function EstimateTargetBitrate(width: nat, height: nat, crf: nat, encoder: string): (t: real)
    ensures t > 0.0
  {
    BaseBitrate(width * height) * CrfFactor(23 - crf) * EncoderFactor(encoder)
  }

  lemma TargetStep(width: nat, height: nat, crf: nat, encoder: string)
    ensures EstimateTargetBitrate(width, height, crf, encoder) == 1.12 * EstimateTargetBitrate(width, height, crf + 1, encoder)
  {
    var b, e, c, c' := BaseBitrate(width * height), EncoderFactor(encoder), CrfFactor(23 - crf), CrfFactor(23 - (crf + 1));
    assert c == 1.12 * c';
    assert b * c == 1.12 * (b * c');
    assert b * c * e == 1.12 * (b * c' * e);
  }

  /** Each quality step changes the target by 12%, and more pixels never lower it. */
  lemma TargetScales(width: nat, height: nat, width': nat, height': nat, crf: nat, encoder: string)
    ensures EstimateTargetBitrate(width, height, crf, encoder) == 1.12 * EstimateTargetBitrate(width, height, crf + 1, encoder)
    ensures width * height <= width' * height' ==>
              EstimateTargetBitrate(width, height, crf, encoder) <= EstimateTargetBitrate(width', height', crf, encoder)
  {
    TargetStep(width, height, crf, encoder);
    if width * height <= width' * height' {
      var b, b', c := BaseBitrate(width * height), BaseBitrate(width' * height'), CrfFactor(23 - crf);
      MulOrder(b, b', c);
      MulOrder(b * c, b' * c, EncoderFactor(encoder));
    }
  }

  // ----- tolerance -----

  function Abs(x: real): real { if x < 0.0 then -x else x }

  function Mean(s: seq<real>): real
    requires s != []
  {
    Total(s) / |s| as real
  }

  function Ratios(gops: seq<GopStats>, target: real): seq<real>
    requires target > 0.0
  {
    seq(|gops|, k requires 0 <= k < |gops| => gops[k].bitrateBps / target)
  }

  function SquaredFrom(s: seq<real>, mean: real): seq<real> {
    seq(|s|, k requires 0 <= k < |s| => (s[k] - mean) * (s[k] - mean))
  }

  function Clamp(x: real, lo: real, hi: real): real { if x < lo then lo else if x > hi then hi else x }

  /** The tolerance for these groups; clamping to an empty interval fails. */
  function AutoTuneTolerance(gops: seq<GopStats>, target: real, maxTolerance: real, sqrt: real -> real): Option<real> {
    if gops == [] || target <= 0.0 then Some(maxTolerance)
    else if maxTolerance < 0.05 then None
    else
      var ratios := Ratios(gops, target);
      var mean := Mean(ratios);
      var stddev := sqrt(Mean(SquaredFrom(ratios, mean)));
      Some(Clamp(2.0 * stddev - Abs(mean - 1.0), 0.05, maxTolerance))
  }

  // ----- plan -----

  function RatesIn(gops: seq<GopStats>, start: real, end: real): seq<real> {
    if gops == [] then []
    else
      var last := gops[|gops| - 1];
      RatesIn(gops[..|gops| - 1], start, end)
      + (if last.startTime < end && last.endTime > start then [last.bitrateBps] else [])
  }

  function RatioOf(rates: seq<real>, target: real): Option<real>
    requires target > 0.0
  {
    if rates == [] then None else Some(Mean(rates) / target)
  }

  predicate OnTarget(ratio: Option<real>, tolerance: real) {
    ratio.Some? && 1.0 - tolerance <= ratio.value <= 1.0 + tolerance
  }

  function Uniform(n: nat, copy: bool, tolerance: real, target: real): SegmentPlan {
    SegmentPlan(seq(n, k => copy), seq(n, k => None), tolerance, target)
  }

  function SmartPlan(src: Source, ranges: seq<(real, real)>, tolerance: real, target: real): SegmentPlan
    requires target > 0.0
  {
    var ratios := seq(|ranges|, k requires 0 <= k < |ranges| => RatioOf(RatesIn(src.gops, ranges[k].0, ranges[k].1), target));
    SegmentPlan(seq(|ranges|, k requires 0 <= k < |ranges| => !src.blocked && OnTarget(ratios[k], tolerance)),
                ratios, tolerance, target)
  }

  function PlanSegments(src: Source, ranges: seq<(real, real)>, mode: string, encoder: string, crf: nat,
                        tolerance: real, sqrt: real -> real): Option<SegmentPlan> {
    var target := EstimateTargetBitrate(src.width, src.height, crf, encoder);
    if mode == "copy" then Some(Uniform(|ranges|, true, tolerance, target))
    else if mode == "smart" then Some(SmartPlan(src, ranges, tolerance, target))
    else if mode == "smart-auto" then
      match AutoTuneTolerance(src.gops, target, tolerance, sqrt)
      case None => None
      case Some(tuned) => Some(SmartPlan(src, ranges, tuned, target))
    else Some(Uniform(|ranges|, false, tolerance, target))
  }

  // ----- recommendation -----

  predicate Near(g: GopStats, target: real, tolerance: real)
    requires target > 0.0
  {
    Abs(g.bitrateBps / target - 1.0) <= tolerance
  }

  function CountNear(gops: seq<GopStats>, target: real, tolerance: real): (n: nat)
    requires target > 0.0
    ensures n <= |gops|
  {
    if gops == [] then 0
    else CountNear(gops[..|gops| - 1], target, tolerance) + (if Near(gops[|gops| - 1], target, tolerance) then 1 else 0)
  }

  function Recommend(src: Source, encoder: string, crf: nat, maxTolerance: real, sqrt: real -> real): Option<Recommendation> {
    if src.blocked || src.gops == [] then Some(Recommendation("normal", None))
    else
      var target := EstimateTargetBitrate(src.width, src.height, crf, encoder);
      match AutoTuneTolerance(src.gops, target, maxTolerance, sqrt)
      case None => None
      case Some(tolerance) =>
        var fraction := CountNear(src.gops, target, tolerance) as real / |src.gops| as real;
        Some(Recommendation(if fraction >= 0.9 then "copy" else if fraction <= 0.1 then "normal" else "smart-auto",
                            Some(fraction)))
  }

  // ----- averages of near rates are near -----

  lemma {:induction false} SumBetween(s: seq<real>, lo: real, hi: real)
    requires forall k :: 0 <= k < |s| ==> lo <= s[k] <= hi
    ensures lo * |s| as real <= Total(s) <= hi * |s| as real
    decreases |s|
  {
    if s != [] {
      SumBetween(s[..|s| - 1], lo, hi);
      assert |s| as real == (|s| - 1) as real + 1.0;
    }
  }

  lemma MeanBetween(s: seq<real>, lo: real, hi: real)
    requires s != [] && forall k :: 0 <= k < |s| ==> lo <= s[k] <= hi
    ensures lo <= Mean(s) <= hi
  {
    SumBetween(s, lo, hi);
    DivideBounds(Total(s), lo, hi, |s| as real);
  }

  lemma MulOrder(x: real, y: real, t: real)
    requires t > 0.0
    ensures x <= y <==> x * t <= y * t
  {
    assert (y - x) * t == y * t - x * t;
    assert x <= y ==> (y - x) * t >= 0.0;
    assert x > y ==> (x - y) * t > 0.0;
  }

  lemma DivideBounds(x: real, lo: real, hi: real, n: real)
    requires n > 0.0 && lo * n <= x <= hi * n
    ensures lo <= x / n <= hi
  {
    var q := x / n;
    assert q * n == x;
    MulOrder(lo, q, n);
    MulOrder(q, hi, n);
  }

  ghost predicate RateOfSome(gops: seq<GopStats>, rate: real) { exists g :: g in gops && g.bitrateBps == rate }

  lemma {:induction false} RatesAreOfGops(gops: seq<GopStats>, start: real, end: real)
    ensures forall k :: 0 <= k < |RatesIn(gops, start, end)| ==> RateOfSome(gops, RatesIn(gops, start, end)[k])
    decreases |gops|
  {
    if gops != [] {
      var n := |gops| - 1;
      RatesAreOfGops(gops[..n], start, end);
      var rates := RatesIn(gops[..n], start, end);
      forall k | 0 <= k < |RatesIn(gops, start, end)|
        ensures RateOfSome(gops, RatesIn(gops, start, end)[k])
      {
        if k < |rates| {
          assert RateOfSome(gops[..n], rates[k]);
          var g :| g in gops[..n] && g.bitrateBps == rates[k];
          assert g in gops && RatesIn(gops, start, end)[k] == rates[k];
        } else {
          assert gops[n] in gops && RatesIn(gops, start, end)[k] == gops[n].bitrateBps;
        }
      }
    }
  }

  lemma {:induction false} AllNear(gops: seq<GopStats>, target: real, tolerance: real)
    requires target > 0.0 && CountNear(gops, target, tolerance) == |gops|
    ensures forall g :: g in gops ==> Near(g, target, tolerance)
    decreases |gops|
  {
    if gops != [] {
      AllNear(gops[..|gops| - 1], target, tolerance);
      assert gops == gops[..|gops| - 1] + [gops[|gops| - 1]];
    }
  }

  lemma NearRate(b: real, target: real, tolerance: real)
    requires target > 0.0
    ensures Abs(b / target - 1.0) <= tolerance <==> (1.0 - tolerance) * target <= b <= (1.0 + tolerance) * target
  {
    var q, lo, hi := b / target, 1.0 - tolerance, 1.0 + tolerance;
    assert q * target == b;
    MulOrder(lo, q, target);
    MulOrder(q, hi, target);
    assert lo * target <= b <==> lo <= q;
    assert b <= hi * target <==> q <= hi;
    assert Abs(q - 1.0) <= tolerance <==> lo <= q <= hi;
  }

  // ----- main results -----

  /** When every group is near the target, every range that meets a group is copied. */
  lemma NearGroupsCopied(src: Source, ranges: seq<(real, real)>, tolerance: real, target: real, k: nat)
    requires target > 0.0 && k < |ranges| && !src.blocked
    requires forall g :: g in src.gops ==> Near(g, target, tolerance)
    requires RatesIn(src.gops, ranges[k].0, ranges[k].1) != []
    ensures SmartPlan(src, ranges, tolerance, target).copy[k]
  {
    var rates := RatesIn(src.gops, ranges[k].0, ranges[k].1);
    RatesAreOfGops(src.gops, ranges[k].0, ranges[k].1);
    forall m | 0 <= m < |rates|
      ensures (1.0 - tolerance) * target <= rates[m] <= (1.0 + tolerance) * target
    {
      assert RateOfSome(src.gops, rates[m]);
      var g :| g in src.gops && g.bitrateBps == rates[m];
      NearRate(g.bitrateBps, target, tolerance);
    }
    MeanBetween(rates, (1.0 - tolerance) * target, (1.0 + tolerance) * target);
    NearRate(Mean(rates), target, tolerance);
  }

  /** If the recommendation finds all groups on target, smart-auto copies every range that meets one. */
  lemma RecommendationMatchesPlan(src: Source, ranges: seq<(real, real)>, encoder: string, crf: nat, tolerance: real,
                                  sqrt: real -> real, k: nat)
    requires tolerance >= 0.05 && k < |ranges| && RatesIn(src.gops, ranges[k].0, ranges[k].1) != []
    ensures var (r, p) := (Recommend(src, encoder, crf, tolerance, sqrt),
                           PlanSegments(src, ranges, "smart-auto", encoder, crf, tolerance, sqrt));
            && r.Some? && p.Some?
            && (r.value.copyableGopFraction == Some(1.0) ==> p.value.copy[k] && r.value.mode == "copy")
  {
    var target := EstimateTargetBitrate(src.width, src.height, crf, encoder);
    var r := Recommend(src, encoder, crf, tolerance, sqrt);
    if r.value.copyableGopFraction == Some(1.0) {
      var tuned := AutoTuneTolerance(src.gops, target, tolerance, sqrt).value;
      WholeFraction(CountNear(src.gops, target, tuned), |src.gops|);
      AllNear(src.gops, target, tuned);
      NearGroupsCopied(src, ranges, tuned, target, k);
    }
  }

  lemma WholeFraction(a: nat, n: nat)
    requires n > 0 && a as real / n as real == 1.0
    ensures a == n
  {
    assert (a as real / n as real) * n as real == a as real;
  }

  /** A wider tolerance never copies less. */
  lemma WiderCopiesMore(src: Source, ranges: seq<(real, real)>, t1: real, t2: real, target: real)
    requires target > 0.0 && t1 <= t2
    ensures forall k :: 0 <= k < |ranges| && SmartPlan(src, ranges, t1, target).copy[k]
                     ==> SmartPlan(src, ranges, t2, target).copy[k]
  {
  }

  lemma TunedWithin(gops: seq<GopStats>, target: real, t1: real, t2: real, sqrt: real -> real)
    requires target > 0.0 && t1 <= t2
    ensures AutoTuneTolerance(gops, target, t1, sqrt).None? <==> gops != [] && t1 < 0.05
    ensures AutoTuneTolerance(gops, target, t1, sqrt).Some? ==>
              && AutoTuneTolerance(gops, target, t2, sqrt).Some?
              && AutoTuneTolerance(gops, target, t1, sqrt).value <= t1
              && AutoTuneTolerance(gops, target, t1, sqrt).value <= AutoTuneTolerance(gops, target, t2, sqrt).value
  {
  }

  /** What smart-auto copies, smart copies too; and both copy more under a wider tolerance. */
  lemma AutoIsMoreCautious(src: Source, ranges: seq<(real, real)>, encoder: string, crf: nat, t1: real, t2: real,
                           sqrt: real -> real, k: nat)
    requires t1 <= t2 && k < |ranges|
    requires PlanSegments(src, ranges, "smart-auto", encoder, crf, t1, sqrt).Some?
    ensures PlanSegments(src, ranges, "smart", encoder, crf, t1, sqrt).Some?
    ensures PlanSegments(src, ranges, "smart", encoder, crf, t2, sqrt).Some?
    ensures PlanSegments(src, ranges, "smart-auto", encoder, crf, t2, sqrt).Some?
    ensures var (auto1, auto2) := (PlanSegments(src, ranges, "smart-auto", encoder, crf, t1, sqrt).value,
                                   PlanSegments(src, ranges, "smart-auto", encoder, crf, t2, sqrt).value);
            var (smart1, smart2) := (PlanSegments(src, ranges, "smart", encoder, crf, t1, sqrt).value,
                                     PlanSegments(src, ranges, "smart", encoder, crf, t2, sqrt).value);
            && (auto1.copy[k] ==> smart1.copy[k] && auto2.copy[k])
            && (smart1.copy[k] ==> smart2.copy[k])
  {
    var target := EstimateTargetBitrate(src.width, src.height, crf, encoder);
    TunedWithin(src.gops, target, t1, t2, sqrt);
    var a1, a2 := AutoTuneTolerance(src.gops, target, t1, sqrt).value, AutoTuneTolerance(src.gops, target, t2, sqrt).value;
    WiderCopiesMore(src, ranges, a1, t1, target);
    WiderCopiesMore(src, ranges, a1, a2, target);
    WiderCopiesMore(src, ranges, t1, t2, target);
  }

  /** A range that meets a single group is copied exactly when the recommendation counts that group. */
  lemma SingleGroupRange(src: Source, ranges: seq<(real, real)>, tolerance: real, target: real, k: nat, g: GopStats)
    requires target > 0.0 && k < |ranges| && !src.blocked
    requires RatesIn(src.gops, ranges[k].0, ranges[k].1) == [g.bitrateBps]
    ensures SmartPlan(src, ranges, tolerance, target).copy[k] <==> Near(g, target, tolerance)
  {
    var rates := [g.bitrateBps];
    assert rates[..0] == [];
    assert Total(rates) == Total([]) + g.bitrateBps == g.bitrateBps;
    assert Mean(rates) == g.bitrateBps;
  }

  /** One group at half the target and one at one and a half times it. */
  function OffTarget(t: real): seq<GopStats> {
    [GopStats(0, 29, 0.0, 1.0, 0, 0.5 * t), GopStats(30, 59, 1.0, 2.0, 0, 1.5 * t)]
  }

  lemma DivideOut(a: real, t: real)
    requires t > 0.0
    ensures a * t / t == a
  {
    var q := a * t / t;
    assert q * t == a * t;
    MulOrder(q, a, t);
    MulOrder(a, q, t);
  }

  lemma NoneNear(t: real)
    requires t > 0.0
    ensures CountNear(OffTarget(t), t, 0.05) == 0
  {
    var gops := OffTarget(t);
    DivideOut(0.5, t);
    DivideOut(1.5, t);
    assert gops[..1] == [gops[0]] && [gops[0]][..0] == [];
    assert !Near(gops[0], t, 0.05) && !Near(gops[1], t, 0.05);
    assert CountNear([gops[0]], t, 0.05) == 0;
  }

  lemma RatesOfTwo(g: GopStats, h: GopStats, start: real, end: real)
    requires g.startTime < end && g.endTime > start && h.startTime < end && h.endTime > start
    ensures RatesIn([g, h], start, end) == [g.bitrateBps, h.bitrateBps]
  {
    assert [g, h][..1] == [g] && [g][..0] == [];
    assert RatesIn([g], start, end) == [] + [g.bitrateBps] == [g.bitrateBps];
    assert RatesIn([g, h], start, end) == [g.bitrateBps] + [h.bitrateBps];
  }

  lemma AverageOnTarget(t: real)
    requires t > 0.0
    ensures RatioOf(RatesIn(OffTarget(t), 0.0, 2.0), t) == Some(1.0)
  {
    var low, high := 0.5 * t, 1.5 * t;
    RatesOfTwo(OffTarget(t)[0], OffTarget(t)[1], 0.0, 2.0);
    TotalOfTwo(low, high);
    assert Mean([low, high]) == 1.0 * t;
    DivideOut(1.0, t);
  }

  lemma TotalOfTwo(a: real, b: real)
    ensures Total([a, b]) == a + b
  {
    assert [a][..0] == [];
    assert Total([a]) == Total([]) + a == a;
    assert [a, b] == [a] + [b];
    assert [a, b][..1] == [a];
    assert Total([a, b]) == Total([a]) + b;
  }

  /**
   A range that meets several groups is judged by their average: it can be copied although the
   recommendation finds no group near the target.
   */
  lemma AverageHidesGroups(encoder: string, crf: nat, sqrt: real -> real) returns (src: Source, range: (real, real))
    ensures var r := Recommend(src, encoder, crf, 0.05, sqrt);
            r.Some? && r.value == Recommendation("normal", Some(0.0))
    ensures var p := PlanSegments(src, [range], "smart-auto", encoder, crf, 0.05, sqrt);
            p.Some? && p.value.copy == [true]
  {
    var t := EstimateTargetBitrate(1920, 1080, crf, encoder);
    src, range := Source(1920, 1080, OffTarget(t), false), (0.0, 2.0);
    NoneNear(t);
    AverageOnTarget(t);
    assert AutoTuneTolerance(src.gops, t, 0.05, sqrt) == Some(0.05);
  }

  // ----- the plan by itself -----

  /** What the rates of the groups that overlap a range add up to, and how many those are. */
  function Overlapping(gops: seq<GopStats>, start: real, end: real): (r: (real, nat)) {
    if gops == [] then (0.0, 0)
    else
      var g, (sum, n) := gops[|gops| - 1], Overlapping(gops[..|gops| - 1], start, end);
      if g.startTime < end && start < g.endTime then (sum + g.bitrateBps, n + 1) else (sum, n)
  }

  lemma {:induction false} OverlappingRates(gops: seq<GopStats>, start: real, end: real)
    ensures Overlapping(gops, start, end) == (Total(RatesIn(gops, start, end)), |RatesIn(gops, start, end)|)
    decreases |gops|
  {
    if gops != [] {
      var front, g := gops[..|gops| - 1], gops[|gops| - 1];
      OverlappingRates(front, start, end);
      var rates := RatesIn(front, start, end);
      if g.startTime < end && g.endTime > start {
        assert (rates + [g.bitrateBps])[..|rates|] == rates;
      } else {
        assert rates + [] == rates;
      }
    }
  }

  /** `x` times the target for each of `n` groups. */
  function Amount(x: real, target: real, n: nat): real { x * target * n as real }

  /** The rates of the overlapping groups are within the tolerance of the target on average. */
  predicate NearOnAverage(overlapping: (real, nat), target: real, tolerance: real) {
    && overlapping.1 > 0
    && Amount(1.0 - tolerance, target, overlapping.1) <= overlapping.0
    && overlapping.0 <= Amount(1.0 + tolerance, target, overlapping.1)
  }

  /** `x` for each of `n` groups. */
  function Times(x: real, n: nat): real { x * n as real }

  lemma RatioBounds(mean: real, target: real, n: nat, lo: real, hi: real)
    requires target > 0.0 && n > 0
    ensures lo <= mean / target <==> Amount(lo, target, n) <= Times(mean, n)
    ensures mean / target <= hi <==> Times(mean, n) <= Amount(hi, target, n)
  {
    var q := mean / target;
    assert q * target == mean;
    MulOrder(lo, q, target);
    MulOrder(q, hi, target);
    MulOrder(lo * target, mean, n as real);
    MulOrder(mean, hi * target, n as real);
  }

  lemma MeanTimes(rates: seq<real>)
    requires rates != []
    ensures Times(Mean(rates), |rates|) == Total(rates)
  {
    var x, n := Total(rates), |rates| as real;
    assert x / n * n == x;
  }

  lemma MeanBounds(rates: seq<real>, target: real, lo: real, hi: real)
    requires target > 0.0 && rates != []
    ensures lo <= Mean(rates) / target <==> Amount(lo, target, |rates|) <= Total(rates)
    ensures Mean(rates) / target <= hi <==> Total(rates) <= Amount(hi, target, |rates|)
  {
    RatioBounds(Mean(rates), target, |rates|, lo, hi);
    MeanTimes(rates);
  }

  lemma MeanOnTarget(rates: seq<real>, target: real, tolerance: real)
    requires target > 0.0
    ensures OnTarget(RatioOf(rates, target), tolerance) <==> NearOnAverage((Total(rates), |rates|), target, tolerance)
  {
    if rates != [] {
      MeanBounds(rates, target, 1.0 - tolerance, 1.0 + tolerance);
    }
  }

  /** Mode "copy" copies every range, an unknown mode none; neither looks at the groups. */
  lemma UniformModes(src: Source, ranges: seq<(real, real)>, mode: string, encoder: string, crf: nat, tolerance: real,
                     sqrt: real -> real)
    requires mode != "smart" && mode != "smart-auto"
    ensures var p := PlanSegments(src, ranges, mode, encoder, crf, tolerance, sqrt);
            && p.Some? && |p.value.copy| == |p.value.bitrateRatio| == |ranges| && p.value.tolerance == tolerance
            && forall k :: 0 <= k < |ranges| ==> p.value.copy[k] == (mode == "copy") && p.value.bitrateRatio[k] == None
  {
  }

  lemma RatioExact(rates: seq<real>, target: real)
    requires target > 0.0
    ensures RatioOf(rates, target).Some? <==> rates != []
    ensures rates != [] ==> Amount(RatioOf(rates, target).value, target, |rates|) == Total(rates)
  {
    if rates != [] {
      MeanTimes(rates);
      var mean := Mean(rates);
      assert mean / target * target == mean;
    }
  }

  lemma SmartRange(src: Source, ranges: seq<(real, real)>, tolerance: real, target: real, k: nat)
    requires target > 0.0 && k < |ranges|
    ensures SmartPlan(src, ranges, tolerance, target).copy[k] <==>
              !src.blocked && NearOnAverage(Overlapping(src.gops, ranges[k].0, ranges[k].1), target, tolerance)
    ensures IsRatio(SmartPlan(src, ranges, tolerance, target).bitrateRatio[k],
                    Overlapping(src.gops, ranges[k].0, ranges[k].1), target)
  {
    var rates := RatesIn(src.gops, ranges[k].0, ranges[k].1);
    OverlappingRates(src.gops, ranges[k].0, ranges[k].1);
    MeanOnTarget(rates, target, tolerance);
    RatioExact(rates, target);
  }

  /** The ratio is missing without groups; else it is their average rate over the target. */
  predicate IsRatio(ratio: Option<real>, overlapping: (real, nat), target: real) {
    && (ratio.Some? <==> overlapping.1 > 0)
    && (ratio.Some? ==> Amount(ratio.value, target, overlapping.1) == overlapping.0)
  }

  /**
   The smart modes copy exactly the ranges that overlap some group and whose overlapping groups
   are on average within the tolerance of the target, and none at all when formats differ.
   Mode "smart" takes the given tolerance; "smart-auto" the tuned one, and fails without one.
   */
  lemma SmartModes(src: Source, ranges: seq<(real, real)>, mode: string, encoder: string, crf: nat, tolerance: real,
                   sqrt: real -> real)
    requires mode == "smart" || mode == "smart-auto"
    ensures var (p, t) := (PlanSegments(src, ranges, mode, encoder, crf, tolerance, sqrt),
                           EstimateTargetBitrate(src.width, src.height, crf, encoder));
            && (p.None? <==> mode == "smart-auto" && src.gops != [] && tolerance < 0.05)
            && (p.Some? ==>
                  && |p.value.copy| == |p.value.bitrateRatio| == |ranges| && p.value.targetBitrate == t
                  && (mode == "smart" || src.gops == [] ==> p.value.tolerance == tolerance)
                  && forall k :: 0 <= k < |ranges| ==>
                       (p.value.copy[k] <==>
                          !src.blocked && NearOnAverage(Overlapping(src.gops, ranges[k].0, ranges[k].1), t, p.value.tolerance))
                       && IsRatio(p.value.bitrateRatio[k], Overlapping(src.gops, ranges[k].0, ranges[k].1), t))
  {
    var t := EstimateTargetBitrate(src.width, src.height, crf, encoder);
    var p := PlanSegments(src, ranges, mode, encoder, crf, tolerance, sqrt);
    if p.Some? {
      assert p.value == SmartPlan(src, ranges, p.value.tolerance, t);
      forall k | 0 <= k < |ranges|
        ensures p.value.copy[k] <==>
                  !src.blocked && NearOnAverage(Overlapping(src.gops, ranges[k].0, ranges[k].1), t, p.value.tolerance)
        ensures IsRatio(p.value.bitrateRatio[k], Overlapping(src.gops, ranges[k].0, ranges[k].1), t)
      {
        SmartRange(src, ranges, p.value.tolerance, t, k);
      }
    }
  }

  // ----- the tuned tolerance -----

  /** Two groups, at `a` and at `b` times the target. */
  function Pair(a: real, b: real, t: real): seq<GopStats> {
    [GopStats(0, 29, 0.0, 1.0, 0, a * t), GopStats(30, 59, 1.0, 2.0, 0, b * t)]
  }

  lemma PairRatios(a: real, b: real, t: real)
    requires t > 0.0
    ensures Ratios(Pair(a, b, t), t) == [a, b]
  {
    DivideOut(a, t);
    DivideOut(b, t);
  }

  lemma SquaresOfTwo(m: real, d: real)
    ensures SquaredFrom([m - d, m + d], m) == [d * d, d * d]
  {
    var squares := SquaredFrom([m - d, m + d], m);
    assert m - d - m == -d && m + d - m == d && (-d) * (-d) == d * d;
    assert squares[0] == d * d && squares[1] == d * d;
  }

  lemma SpreadDeviation(m: real, d: real)
    ensures Mean([m - d, m + d]) == m && Mean(SquaredFrom([m - d, m + d], m)) == d * d
  {
    TotalOfTwo(m - d, m + d);
    SquaresOfTwo(m, d);
    TotalOfTwo(d * d, d * d);
  }

  /**
   The tuned tolerance of a spread of `d` around `m` is twice the spread less the distance of
   `m` from the target, but at least 0.05 and at most the bound.
   */
  lemma TunedToSpread(m: real, d: real, t: real, max: real, sqrt: real -> real)
    requires t > 0.0 && d >= 0.0 && max >= 0.05 && sqrt(d * d) == d
    ensures var tuned, off := AutoTuneTolerance(Pair(m - d, m + d, t), t, max, sqrt), if m >= 1.0 then m - 1.0 else 1.0 - m;
            && tuned.Some?
            && (0.05 <= 2.0 * d - off <= max ==> tuned.value == 2.0 * d - off)
            && (2.0 * d - off < 0.05 ==> tuned.value == 0.05)
            && (2.0 * d - off > max ==> tuned.value == max)
  {
    PairRatios(m - d, m + d, t);
    SpreadDeviation(m, d);
  }

  // ----- the target -----

  lemma {:induction false} TooLong(s: string, part: string)
    requires |part| > |s|
    ensures !Contains(s, part)
  {
    if s != [] {
      TooLong(s[1..], part);
    }
  }

  lemma NotAtFront(s: string, part: string)
    requires s != [] && part != [] && part[0] != s[0] && !Contains(s[1..], part)
    ensures !Contains(s, part)
  {
  }

  /** No word of five letters or more that starts with none of these three is in such a name. */
  lemma NotInLib(e: string, part: string)
    requires |e| == 7 && |part| >= 5 && part[0] != e[0] && part[0] != e[1] && part[0] != e[2]
    ensures !Contains(e, part)
  {
    assert e[1..][1..] == e[2..] && e[2..][1..] == e[3..];
    TooLong(e[3..], part);
    NotAtFront(e[2..], part);
    NotAtFront(e[1..], part);
    NotAtFront(e, part);
  }

  lemma PlainEncoder(e: string)
    requires e == "libx264" || e == "libx265"
    ensures EncoderFactor(e) == if e == "libx264" then 1.0 else 0.5
  {
    assert e[0] == 'l' && e[1] == 'i' && e[2] == 'b';
    NotInLib(e, "videotoolbox");
    NotInLib(e, "nvenc");
    NotInLib(e, "vaapi");
  }

  /** At quality 23: 40, 8, 4 and 2 Mbit/s by resolution with libx264, and half of that with libx265. */
  lemma TargetTable(width: nat, height: nat)
    ensures var pixels, x264 := width * height, EstimateTargetBitrate(width, height, 23, "libx264");
            && x264 == (if pixels >= 8294400 then 40000000.0 else if pixels >= 2073600 then 8000000.0
                        else if pixels >= 921600 then 4000000.0 else 2000000.0)
            && EstimateTargetBitrate(width, height, 23, "libx265") == x264 / 2.0
  {
    PlainEncoder("libx264");
    PlainEncoder("libx265");
    assert CrfFactor(23 - 23) == 1.0;
  }

  // ----- the recommendation -----

  /** The groups whose rate is within the tolerance of the target. */
  ghost function NearOnes(gops: seq<GopStats>, target: real, tolerance: real): set<nat> {
    set k: nat | k < |gops| && (1.0 - tolerance) * target <= gops[k].bitrateBps <= (1.0 + tolerance) * target
  }

  lemma {:induction false} NearCounted(gops: seq<GopStats>, target: real, tolerance: real)
    requires target > 0.0
    ensures CountNear(gops, target, tolerance) == |NearOnes(gops, target, tolerance)|
    decreases |gops|
  {
    if gops != [] {
      var n, front := |gops| - 1, gops[..|gops| - 1];
      NearCounted(front, target, tolerance);
      NearRate(gops[n].bitrateBps, target, tolerance);
      var before, all := NearOnes(front, target, tolerance), NearOnes(gops, target, tolerance);
      assert n !in before;
      assert all == if Near(gops[n], target, tolerance) then before + {n} else before;
    }
  }

  lemma FractionOrder(a: nat, n: nat)
    requires n > 0
    ensures a as real / n as real >= 0.9 <==> 10 * a >= 9 * n
    ensures a as real / n as real <= 0.1 <==> 10 * a <= n
  {
    var q := a as real / n as real;
    assert q * n as real == a as real;
    MulOrder(0.9, q, n as real);
    MulOrder(q, 0.1, n as real);
  }

  /** "copy" is recommended from nine tenths of the groups near the target on, "normal" up to one tenth. */
  lemma RecommendedByShare(src: Source, encoder: string, crf: nat, max: real, sqrt: real -> real)
    requires !src.blocked && src.gops != [] && max >= 0.05
    ensures var (r, t) := (Recommend(src, encoder, crf, max, sqrt), EstimateTargetBitrate(src.width, src.height, crf, encoder));
            && AutoTuneTolerance(src.gops, t, max, sqrt).Some? && r.Some?
            && var near := |NearOnes(src.gops, t, AutoTuneTolerance(src.gops, t, max, sqrt).value)|;
               && r.value.mode == (if 10 * near >= 9 * |src.gops| then "copy" else if 10 * near <= |src.gops| then "normal" else "smart-auto")
               && r.value.copyableGopFraction == Some(near as real / |src.gops| as real)
  {
    var t := EstimateTargetBitrate(src.width, src.height, crf, encoder);
    var tolerance := AutoTuneTolerance(src.gops, t, max, sqrt).value;
    NearCounted(src.gops, t, tolerance);
    FractionOrder(CountNear(src.gops, t, tolerance), |src.gops|);
  }
}
