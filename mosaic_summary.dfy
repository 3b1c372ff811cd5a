/** The pure functions of MosaicGazeManager1: the layer-mask rule for the
    gaze ray cast, the zero-guarded averages and percentages shown at the
    end of a session, and the banding of those numbers into ratings and
    emoji. */
module MosaicBands {

  /** A C# `int`, the type of `LayerMask.value`. */
  newtype int32 = x: int | -0x8000_0000 <= x < 0x8000_0000

  /** The mask passed to the ray cast: an empty mask (0) means "all layers",
      written -1; any other mask is used as it is. */
  function EffectiveLayerMask(mask: int32): int32
  {
    if mask == 0 then -1 else mask
  }

  /** The 32 bits of a mask in two's complement. */
  function MaskBits(mask: int32): bv32
  {
    if mask < 0 then (mask as int + 0x1_0000_0000) as bv32 else mask as bv32
  }

  /** Whether a mask lets the ray cast hit objects on the given layer. */
  predicate IncludesLayer(mask: int32, layer: nat)
    requires layer < 32
  {
    MaskBits(mask) & ((1 as bv32) << layer) != 0
  }

  /** An empty tile mask makes the ray cast consider every one of the 32
      layers; a non-empty one is passed through unchanged. */
  lemma EffectiveLayerMaskRule(mask: int32)
    ensures mask == 0 ==> forall layer: nat :: layer < 32 ==> IncludesLayer(EffectiveLayerMask(mask), layer)
    ensures mask != 0 ==> EffectiveLayerMask(mask) == mask
  {
    assert MaskBits(-1) == 0xFFFF_FFFF;
  }

  /** The ray cast is never handed a mask that excludes every layer. */
  lemma {:induction false} EffectiveLayerMaskNeverEmpty(mask: int32)
    ensures MaskBits(EffectiveLayerMask(mask)) != 0
  {
    if mask == 0 {
      assert MaskBits(-1) == 0xFFFF_FFFF;
    } else if mask < 0 {
      assert 0 < mask as int + 0x1_0000_0000 < 0x1_0000_0000;
    } else {
      assert 0 < mask as int < 0x1_0000_0000;
    }
  }

  /** Average dwell at the end of a session; 0 when nothing completed. */
  function AverageDwell(completed: int, dwellSum: real): real
  {
    if completed > 0 then dwellSum / (completed as real) else 0.0
  }

  /** When every completion took at least the dwell threshold, so does the
      average; with no completion the average is 0. */
  lemma AverageDwellAtLeastThreshold(completed: int, dwellSum: real, threshold: real)
    requires completed > 0 && dwellSum >= (completed as real) * threshold
    ensures AverageDwell(completed, dwellSum) >= threshold
  {
    var n := completed as real;
    assert dwellSum / n >= threshold by {
      assert dwellSum >= n * threshold;
    }
  }

  /** Completion percentage; 0 when there are no tiles. */
  function CompletionPercent(completed: int, total: int): real
  {
    if total > 0 then (completed as real) / (total as real) * 100.0 else 0.0
  }

  /** The percentage lies in [0, 100] and is exactly 100 when, and only when,
      every tile is completed. */
  lemma CompletionPercentRange(completed: int, total: int)
    requires 0 <= completed <= total
    ensures 0.0 <= CompletionPercent(completed, total) <= 100.0
    ensures CompletionPercent(completed, total) == 100.0 <==> total > 0 && completed == total
  {
    if total > 0 {
      var c, t := completed as real, total as real;
      assert c / t <= 1.0 by {
        assert c <= t;
      }
      assert c / t == 1.0 <==> c == t by {
        assert c / t * t == c;
      }
    }
  }

  /** The number of thresholds x has reached (x >= threshold). With ascending
      thresholds this is the index of the band x falls in. */
  function BandIndex(x: real, thresholds: seq<real>): (r: nat)
    ensures r <= |thresholds|
  {
    if thresholds == [] then 0
    else (if x >= thresholds[0] then 1 else 0) + BandIndex(x, thresholds[1..])
  }

  /** A larger value never falls into a lower band. */
  lemma {:induction false} BandIndexMonotone(x: real, y: real, thresholds: seq<real>)
    requires x <= y
    ensures BandIndex(x, thresholds) <= BandIndex(y, thresholds)
  {
    if thresholds != [] {
      BandIndexMonotone(x, y, thresholds[1..]);
    }
  }

  /** The rating shown under the completion percentage. */
  datatype Rating = KeepGoing | NiceTry | GoodWork | GreatJob | Excellent
  {
    function Text(): string
    {
      match this
      case Excellent => "Excellent! \U{1F31F}"
      case GreatJob => "Great Job! \U{2728}"
      case GoodWork => "Good Work! \U{2B50}"
      case NiceTry => "Nice Try! \U{1F4AB}"
      case KeepGoing => "Keep Going! \U{1F319}"
    }
  }

  /** The emoji of the summary panel. */
  datatype Emoji = CrescentMoon | Dizzy | Star | Sparkles | GlowingStar | PartyPopper | HighVoltage
  {
    function Text(): string
    {
      match this
      case CrescentMoon => "\U{1F319}"
      case Dizzy => "\U{1F4AB}"
      case Star => "\U{2B50}"
      case Sparkles => "\U{2728}"
      case GlowingStar => "\U{1F31F}"
      case PartyPopper => "\U{1F389}"
      case HighVoltage => "\U{26A1}"
    }
  }

  function GetPerformanceRating(percent: real): Rating
  {
    if percent >= 90.0 then Excellent
    else if percent >= 75.0 then GreatJob
    else if percent >= 60.0 then GoodWork
    else if percent >= 40.0 then NiceTry
    else KeepGoing
  }

  function GetSpeedEmoji(avgDwell: real): Emoji
  {
    if avgDwell < 0.8 then HighVoltage
    else if avgDwell < 1.2 then Sparkles
    else if avgDwell < 1.8 then GlowingStar
    else Dizzy
  }

  function GetCompletionEmoji(percent: real): Emoji
  {
    if percent >= 100.0 then PartyPopper
    else if percent >= 80.0 then GlowingStar
    else if percent >= 60.0 then Sparkles
    else if percent >= 40.0 then Star
    else if percent >= 20.0 then Dizzy
    else CrescentMoon
  }

  /** The bands, lowest first, as tables: the band boundaries and the result
      of each band. */
  const RatingThresholds: seq<real> := [40.0, 60.0, 75.0, 90.0]
  const RatingBands: seq<Rating> := [KeepGoing, NiceTry, GoodWork, GreatJob, Excellent]
  const SpeedThresholds: seq<real> := [0.8, 1.2, 1.8]
  const SpeedBands: seq<Emoji> := [HighVoltage, Sparkles, GlowingStar, Dizzy]
  const CompletionThresholds: seq<real> := [20.0, 40.0, 60.0, 80.0, 100.0]
  const CompletionBands: seq<Emoji> := [CrescentMoon, Dizzy, Star, Sparkles, GlowingStar, PartyPopper]

  /** The rating is the band of the percentage in the rating table. */
  lemma PerformanceRatingBands(percent: real)
    ensures GetPerformanceRating(percent) == RatingBands[BandIndex(percent, RatingThresholds)]
  {
    var t := RatingThresholds;
    assert t[3..][1..] == t[4..];
    assert BandIndex(percent, t[3..]) == (if percent >= 90.0 then 1 else 0) + 0;
    assert t[2..][1..] == t[3..];
    assert BandIndex(percent, t[2..]) == (if percent >= 75.0 then 1 else 0) + BandIndex(percent, t[3..]);
    assert t[1..][1..] == t[2..];
    assert BandIndex(percent, t[1..]) == (if percent >= 60.0 then 1 else 0) + BandIndex(percent, t[2..]);
    assert t[0..][1..] == t[1..];
    assert BandIndex(percent, t[0..]) == (if percent >= 40.0 then 1 else 0) + BandIndex(percent, t[1..]);
    assert t[0..] == t;
  }

  /** The speed emoji is the band of the average dwell in the speed table. */
  lemma SpeedEmojiBands(avgDwell: real)
    ensures GetSpeedEmoji(avgDwell) == SpeedBands[BandIndex(avgDwell, SpeedThresholds)]
  {
    var t := SpeedThresholds;
    assert t[2..][1..] == t[3..];
    assert BandIndex(avgDwell, t[2..]) == (if avgDwell >= 1.8 then 1 else 0) + 0;
    assert t[1..][1..] == t[2..];
    assert BandIndex(avgDwell, t[1..]) == (if avgDwell >= 1.2 then 1 else 0) + BandIndex(avgDwell, t[2..]);
    assert t[0..][1..] == t[1..];
    assert BandIndex(avgDwell, t[0..]) == (if avgDwell >= 0.8 then 1 else 0) + BandIndex(avgDwell, t[1..]);
    assert t[0..] == t;
  }

  /** The completion emoji is the band of the percentage in the completion table. */
  lemma CompletionEmojiBands(percent: real)
    ensures GetCompletionEmoji(percent) == CompletionBands[BandIndex(percent, CompletionThresholds)]
  {
    var t := CompletionThresholds;
    assert t[4..][1..] == t[5..];
    assert BandIndex(percent, t[4..]) == (if percent >= 100.0 then 1 else 0) + 0;
    assert t[3..][1..] == t[4..];
    assert BandIndex(percent, t[3..]) == (if percent >= 80.0 then 1 else 0) + BandIndex(percent, t[4..]);
    assert t[2..][1..] == t[3..];
    assert BandIndex(percent, t[2..]) == (if percent >= 60.0 then 1 else 0) + BandIndex(percent, t[3..]);
    assert t[1..][1..] == t[2..];
    assert BandIndex(percent, t[1..]) == (if percent >= 40.0 then 1 else 0) + BandIndex(percent, t[2..]);
    assert t[0..][1..] == t[1..];
    assert BandIndex(percent, t[0..]) == (if percent >= 20.0 then 1 else 0) + BandIndex(percent, t[1..]);
    assert t[0..] == t;
  }

  /** A better percentage never earns a lower rating or a lower completion emoji. */
  lemma BandsMonotone(p: real, q: real)
    requires p <= q
    ensures BandIndex(p, RatingThresholds) <= BandIndex(q, RatingThresholds)
    ensures BandIndex(p, CompletionThresholds) <= BandIndex(q, CompletionThresholds)
    ensures BandIndex(p, SpeedThresholds) <= BandIndex(q, SpeedThresholds)
  {
    BandIndexMonotone(p, q, RatingThresholds);
    BandIndexMonotone(p, q, CompletionThresholds);
    BandIndexMonotone(p, q, SpeedThresholds);
  }

  /** The party emoji appears exactly when every tile was completed. */
  lemma FullCompletionEmoji(completed: int, total: int)
    requires 0 <= completed <= total
    ensures GetCompletionEmoji(CompletionPercent(completed, total)) == PartyPopper
        <==> total > 0 && completed == total
  {
    CompletionPercentRange(completed, total);
  }
}
