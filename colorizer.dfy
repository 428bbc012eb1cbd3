// The colorizer processing block: its configuration (range, palette,
// equalization), the visual-preset setter that rewrites that configuration,
// the admission filter, the per-frame choice among the four strategies and
// the cache of the last source profile and of the RGB8 profile derived from it.

module DepthColorizer {
  import opened Pixels
  import opened Optional
  import opened Histogram
  import opened Palettes
  import opened Strategies

  datatype StreamType = DepthStream | ColorStream | InfraredStream | OtherStream

  datatype Format = Z16 | Disparity32 | Rgb8 | OtherFormat

  /** A stream profile; `id` is its identity (the library's profile handle). */
  datatype StreamProfile = StreamProfile(id: nat, stream: StreamType, index: int, format: Format)

  /** The raw samples of a frame: 16-bit depth values or 32-bit float disparities. */
  datatype Samples = Depth16(depth: seq<int>) | Disparity(disparity: seq<real>)

  /** What the block may be handed: no frame, a composite frameset, or a single video frame. */
  datatype Frame =
    | NoFrame
    | Frameset
    | Single(profile: StreamProfile, width: nat, height: nat, data: Samples)

  /** The pixel-mapping strategy used for a frame. */
  datatype Strategy = DepthEqualized | DepthCropped | DisparityEqualized | DisparityCropped
  {
    predicate IsDisparity() { this == DisparityEqualized || this == DisparityCropped }
    predicate IsEqualized() { this == DepthEqualized || this == DisparityEqualized }
  }

  /** Admission filter: only a single frame of a depth stream is processed. */
  function ShouldProcess(f: Frame): (ok: bool)
    ensures ok <==> f.Single? && f.profile.stream == DepthStream
  {
    if f.NoFrame? || f.Frameset? then false
    else if f.profile.stream != DepthStream then false
    else true
  }

  /** Strategy for the cached source format and the equalization flag. */
  function SelectStrategy(format: Format, equalize: bool): (s: Strategy)
    ensures s.IsDisparity() <==> format == Disparity32
    ensures s.IsEqualized() <==> equalize
  {
    if format == Disparity32 then
      if equalize then DisparityEqualized else DisparityCropped
    else
      if equalize then DepthEqualized else DepthCropped
  }

  /** The number of samples a single frame carries. */
  function SampleCount(f: Frame): nat
    requires f.Single?
  {
    match f.data
    case Depth16(d) => |d|
    case Disparity(d) => |d|
  }

  /**
    * What the block relies on of a frame it processes: one sample per pixel,
    * samples stored as the profile's format says, and 16-bit values.
    */
  predicate WellFormed(f: Frame)
  {
    f.Single? &&
    SampleCount(f) == f.width * f.height &&
    (f.profile.format == Disparity32 <==> f.data.Disparity?) &&
    (f.data.Depth16? ==> InRange(f.data.depth, MAX_DEPTH))
  }

  /** The cached source profile is replaced only by a profile of another identity. */
  predicate ProfileChanged(cached: Option<StreamProfile>, incoming: StreamProfile)
  {
    cached.None? || cached.value.id != incoming.id
  }

  /** One identity names one profile. */
  predicate SameIdSameProfile(cached: Option<StreamProfile>, incoming: StreamProfile)
  {
    cached.Some? && cached.value.id == incoming.id ==> cached.value == incoming
  }

  /**
    * The output profile cloned from the source profile: depth stream, index 0,
    * RGB8 (resolution, which the clone keeps, is not part of this profile
    * model); `cloneId` is the new handle.
    */
  function RgbTarget(cloneId: nat): StreamProfile
  {
    StreamProfile(cloneId, DepthStream, 0, Rgb8)
  }

  /** `val` selects preset `k`: the setter tests |val - k| < 1e-6. */
  predicate Selects(val: real, k: int)
  {
    -0.000001 < val - k as real < 0.000001
  }

  /** The four tolerance bands are disjoint, so at most one branch of the setter fires. */
  lemma PresetBandsDisjoint(val: real, j: int, k: int)
    requires Selects(val, j) && Selects(val, k)
    ensures j == k
  {
  }

  class Colorizer {
    var minRange: real
    var maxRange: real
    var equalize: bool
    var mapIndex: int
    var sourceProfile: Option<StreamProfile>
    var targetProfile: Option<StreamProfile>
    /** The histogram buffer, allocated once and rebuilt by every equalized frame. */
    const hist: array<int>

    ghost predicate Valid()
      reads this
    {
      hist.Length == MAX_DEPTH && ValidMapIndex(mapIndex)
    }

    /** Range [0, 6] m, equalization on, palette 0 ("Jet"), nothing cached, a zeroed histogram. */
    constructor ()
      ensures Valid() && fresh(hist)
      ensures minRange == 0.0 && maxRange == 6.0 && equalize && mapIndex == 0
      ensures sourceProfile == None && targetProfile == None
      ensures forall v :: 0 <= v < hist.Length ==> hist[v] == 0
    {
      minRange := 0.0;
      maxRange := 6.0;
      equalize := true;
      mapIndex := 0;
      sourceProfile := None;
      targetProfile := None;
      hist := new int[MAX_DEPTH](_ => 0);
    }

    /**
      * The visual-preset setter: Dynamic (0), Fixed (1), Near (2) and Far (3)
      * each rewrite the configuration per a fixed table; any other value
      * leaves it as it was.
      */
    method OnPresetSet(val: real)
      requires Valid()
      modifies this`equalize, this`mapIndex, this`minRange, this`maxRange
      ensures Valid()
      ensures Selects(val, 0) ==>
                equalize && mapIndex == 0 && minRange == old(minRange) && maxRange == old(maxRange)
      ensures Selects(val, 1) ==> !equalize && mapIndex == 0 && minRange == 0.0 && maxRange == 6.0
      ensures Selects(val, 2) ==> !equalize && mapIndex == 1 && minRange == 0.3 && maxRange == 1.5
      ensures Selects(val, 3) ==> !equalize && mapIndex == 0 && minRange == 1.0 && maxRange == 16.0
      ensures !Selects(val, 0) && !Selects(val, 1) && !Selects(val, 2) && !Selects(val, 3) ==>
                equalize == old(equalize) && mapIndex == old(mapIndex) &&
                minRange == old(minRange) && maxRange == old(maxRange)
    {
      if Selects(val, 0) {
        // Dynamic
        equalize := true;
        mapIndex := 0;
      }
      if Selects(val, 1) {
        // Fixed
        equalize := false;
        mapIndex := 0;
        minRange := 0.0;
        maxRange := 6.0;
      }
      if Selects(val, 2) {
        // Near
        equalize := false;
        mapIndex := 1;
        minRange := 0.3;
        maxRange := 1.5;
      }
      if Selects(val, 3) {
        // Far
        equalize := false;
        mapIndex := 0;
        minRange := 1.0;
        maxRange := 16.0;
      }
    }

    /**
      * Colours one admitted frame into a fresh RGB8 buffer of width*height*3
      * bytes. The cached profiles are refreshed only when the frame's profile
      * identity differs from the cached one; the strategy follows the cached
      * format and the equalization flag.
      */
    method ProcessFrame(f: Frame, cloneId: nat, get: Lookup,
                        depthPosition: RangePosition<int>, disparityPosition: RangePosition<real>)
      returns (rgb: array<byte>)
      requires Valid()
      requires ShouldProcess(f) && WellFormed(f)
      requires SameIdSameProfile(sourceProfile, f.profile)
      requires equalize && f.data.Disparity? ==> InRange(Truncated(f.data.disparity), MAX_DEPTH)
      modifies this`sourceProfile, this`targetProfile, hist
      ensures Valid()
      ensures sourceProfile == Some(f.profile)
      ensures ProfileChanged(old(sourceProfile), f.profile) ==> targetProfile == Some(RgbTarget(cloneId))
      ensures !ProfileChanged(old(sourceProfile), f.profile) ==> targetProfile == old(targetProfile)
      ensures fresh(rgb) && rgb.Length == 3 * SampleCount(f) == 3 * f.width * f.height
      ensures !equalize ==> hist[..] == old(hist[..])
      ensures SelectStrategy(f.profile.format, equalize) == DepthEqualized ==>
                hist[..] == Cumulative(f.data.depth, MAX_DEPTH) &&
                forall i :: 0 <= i < |f.data.depth| ==>
                  PixelAt(rgb[..], i) == EqualizedPixel(f.data.depth, MAX_DEPTH, f.data.depth[i], Maps[mapIndex], get)
      ensures SelectStrategy(f.profile.format, equalize) == DepthCropped ==>
                forall i :: 0 <= i < |f.data.depth| ==>
                  PixelAt(rgb[..], i) == CroppedPixel(f.data.depth[i], Maps[mapIndex], get, depthPosition, minRange, maxRange)
      ensures SelectStrategy(f.profile.format, equalize) == DisparityEqualized ==>
                hist[..] == Cumulative(Truncated(f.data.disparity), MAX_DEPTH) &&
                forall i :: 0 <= i < |f.data.disparity| ==>
                  PixelAt(rgb[..], i) == DisparityEqualizedPixel(f.data.disparity, MAX_DEPTH, f.data.disparity[i], Maps[mapIndex], get)
      ensures SelectStrategy(f.profile.format, equalize) == DisparityCropped ==>
                forall i :: 0 <= i < |f.data.disparity| ==>
                  PixelAt(rgb[..], i) == DisparityCroppedPixel(f.data.disparity[i], Maps[mapIndex], get, disparityPosition, minRange, maxRange)
    {
      if ProfileChanged(sourceProfile, f.profile) {
        sourceProfile := Some(f.profile);
        targetProfile := Some(RgbTarget(cloneId));
      }
      var w, h := f.width, f.height;
      rgb := new byte[w * h * 3];
      var cm := Maps[mapIndex];
      match SelectStrategy(sourceProfile.value.format, equalize)
      case DisparityEqualized =>
        MakeDisparityEqualizedHistogram(hist, f.data.disparity, w, h, cm, get, rgb);
      case DisparityCropped =>
        MakeDisparityValueCroppedFrame(f.data.disparity, w, h, cm, get, disparityPosition, minRange, maxRange, rgb);
      case DepthEqualized =>
        MakeEqualizedHistogram(hist, f.data.depth, w, h, cm, get, rgb);
      case DepthCropped =>
        MakeValueCroppedFrame(f.data.depth, w, h, cm, get, depthPosition, minRange, maxRange, rgb);
    }
  }

  /**
    * Two consecutive frames of one profile: the second leaves the cached
    * source and target profiles as the first left them.
    */
  method ProcessConsecutive(c: Colorizer, f1: Frame, f2: Frame, id1: nat, id2: nat, get: Lookup,
                            depthPosition: RangePosition<int>, disparityPosition: RangePosition<real>)
    requires c.Valid()
    requires ShouldProcess(f1) && WellFormed(f1) && ShouldProcess(f2) && WellFormed(f2)
    requires f1.profile == f2.profile
    requires SameIdSameProfile(c.sourceProfile, f1.profile)
    requires c.equalize && f1.data.Disparity? ==> InRange(Truncated(f1.data.disparity), MAX_DEPTH)
    requires c.equalize && f2.data.Disparity? ==> InRange(Truncated(f2.data.disparity), MAX_DEPTH)
    modifies c, c.hist
    ensures c.sourceProfile == Some(f1.profile)
    ensures ProfileChanged(old(c.sourceProfile), f1.profile) ==> c.targetProfile == Some(RgbTarget(id1))
    ensures !ProfileChanged(old(c.sourceProfile), f1.profile) ==> c.targetProfile == old(c.targetProfile)
  {
    var out1 := c.ProcessFrame(f1, id1, get, depthPosition, disparityPosition);
    var out2 := c.ProcessFrame(f2, id2, get, depthPosition, disparityPosition);
  }
}
