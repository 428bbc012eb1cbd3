# Depth colorizer (librealsense `colorizer` processing block)

A Dafny model of the colorizer, the processing block that turns a depth frame
(16-bit samples) or a disparity frame (32-bit float samples) into an RGB8 image.
The model covers:

- **Histogram builders** (`Histogram`). `update_histogram` and
  `update_disparity_histogram` are in-place methods over an `array<int>` of
  `MAX_DEPTH` = 0x10000 entries. Each zeroes the array, counts the samples, and
  prefix-sums from index 2. Both are proved to leave the closed form
  `Cumulative`: entry 0 holds the number of zero samples, and entry v ≥ 1 holds
  the number of samples in [1, v]. Zero samples are never added into the
  cumulative entries. The disparity builder works on the samples after C's
  `(int)` conversion, modelled as truncation toward zero (`TruncateToInt`).
- **Per-pixel strategies** (`Strategies`). Each of the four strategy lambdas is
  a method over an `array<byte>` of w·h·3 bytes. For every pixel i, bytes 3i,
  3i+1 and 3i+2 hold black for a zero sample, and otherwise the colour the
  active palette gives at the sample's position. In the equalized strategies
  the position is `hist[d] / hist[MAX_DEPTH-1]`, modelled as an exact ratio in
  `real`. It is proved never to divide by zero, to lie in (0, 1], and to grow
  with the sample.
- **Palettes** (`Palettes`). The ten control-point tables, and the registry
  `_maps` in its order: Jet, Hue, Classic, White to Black, Black to White, Bio,
  Cold, Warm, Quantized, Pattern.
- **The block itself** (`DepthColorizer`):
  - the admission filter `should_process`;
  - the choice among the four strategies;
  - class `Colorizer`, holding the configuration fields (`_min`, `_max`,
    `_equalize`, `_map_index`), the cached source and target profiles, and the
    histogram buffer;
  - the visual-preset setter (`on_set` callback) as `OnPresetSet`;
  - `process_frame` as `ProcessFrame`.

`color_map::get` is defined in `colorizer.h`, which is not part of this model.
It is a parameter `get: (ColorMap, real) -> Rgb`. The fixed-range position
formulas (floating point over `_min`, `_max`, the frame's depth units and the
disparity calibration) are parameters of type `RangePosition`, applied to
(`_min`, `_max`, sample). The identity of the profile that `clone` creates is
the parameter `cloneId`.

Some consequences of the code that a reader of the histogram and the
strategies may not expect:

- The prefix sum starts at index 2, so `hist[1]` is never added into and keeps
  the number of samples equal to 1. Zeros stay out of every entry ≥ 1: entry
  v ≥ 1 counts the samples in [1, v]. Samples [0, 1, 1, 2] give `hist[1]` = 2
  and `hist[2]` = 3 (`Histogram.WorkedExample`).
- A frame whose samples are all zero never divides: only nonzero samples
  compute a position, and for those the divisor is at least 1
  (`Histogram.CumulativeBounds`).
- The fixed-range positions reach `color_map::get` unclamped
  (src/proc/colorizer.cpp:341 and :412). Any clamping happens inside `get`,
  which is not modelled.
- Both disparity bounds carry a `+ .5f` (src/proc/colorizer.cpp:402-403).

## Model

| member | source | states |
|---|---|---|
| `Histogram.UpdateHistogram` | src/proc/colorizer.cpp:143-148 | overwrites the whole buffer with the cumulative histogram: entry 0 = number of zero samples, entry v ≥ 1 = number of samples in [1, v] |
| `Histogram.UpdateDisparityHistogram` | src/proc/colorizer.cpp:136-141 | the same closed form, over the samples truncated by `(int)`, given each truncated sample indexes the buffer |
| `Histogram.TruncateToInt` | src/proc/colorizer.cpp:139 | `(int)` on a float truncates toward zero: t ≤ x < t+1 for x ≥ 0, and t−1 < x ≤ t for x < 0 |
| `Histogram.CountBetweenStep` | src/proc/colorizer.cpp:147 | the prefix-sum step: the count in [lo, hi] is the count in [lo, hi−1] plus the samples equal to hi |
| `Histogram.CumulativeMonotone` | src/proc/colorizer.cpp:147 | the cumulative entries over [1, MAX_DEPTH) never decrease |
| `Histogram.CumulativeLast` | src/proc/colorizer.cpp:147 | the last entry equals the number of nonzero samples, and the number of all samples when none is zero |
| `Histogram.CumulativeBounds` | src/proc/colorizer.cpp:303-310 | for a nonzero sample d that occurs in the frame, 1 ≤ hist[d] ≤ hist[MAX_DEPTH−1], so the equalized divisor is never zero |
| `Histogram.CumulativeStrict` | src/proc/colorizer.cpp:146-147 | a larger sample value that occurs in the frame has a strictly larger entry |
| `Histogram.CumulativeAppend` | src/proc/colorizer.cpp:146-147 | one more sample raises entry 0 iff it is zero, and entry v ≥ 1 iff it lies in [1, v]: zeros never enter the cumulative entries |
| `Histogram.WorkedExample` | src/proc/colorizer.cpp:146-147 | samples [0,1,1,2] give hist[0]=1, hist[1]=2, hist[2]=3 and hist[MAX_DEPTH−1]=3 |
| `Strategies.EqualizedPosition` | src/proc/colorizer.cpp:309 | the equalized position hist[d] / hist[MAX_DEPTH−1] of a nonzero sample d lies in (0, 1] |
| `Strategies.EqualizedPositionMonotone` | src/proc/colorizer.cpp:309 | d1 ≤ d2 gives position(d1) ≤ position(d2), and d1 < d2 gives a strict inequality |
| `Strategies.EqualSamplesEqualColour` | src/proc/colorizer.cpp:305-314 | two pixels with equal samples get the same equalized colour |
| `Strategies.EqualTruncationEqualColour` | src/proc/colorizer.cpp:369-378 | two disparity pixels whose samples truncate to the same integer get the same equalized colour |
| `Strategies.ZeroSampleIsBlack` | src/proc/colorizer.cpp:316-321 | a zero sample (for disparity equalization, one that truncates to 0) is black in all four strategies |
| `Strategies.SubUnitDisparity` | src/proc/colorizer.cpp:369-371 | a disparity in (0, 1) is black under equalization, which tests the truncated int, but is coloured under the fixed range, which tests the float |
| `Strategies.MakeEqualizedHistogram` | src/proc/colorizer.cpp:294-323 | rebuilds the histogram from the frame; pixel i is black if its sample is 0, else `get` at the equalized position of its sample |
| `Strategies.MakeValueCroppedFrame` | src/proc/colorizer.cpp:325-355 | pixel i is black if its sample is 0, else `get` at the range position of its sample over [_min, _max] |
| `Strategies.MakeDisparityEqualizedHistogram` | src/proc/colorizer.cpp:358-387 | rebuilds the histogram from the truncated samples; pixel i is black if its truncated sample is 0, else `get` at that value's equalized position |
| `Strategies.MakeDisparityValueCroppedFrame` | src/proc/colorizer.cpp:390-425 | pixel i is black if its float sample is 0.0, else `get` at the disparity range position of the sample |
| `Pixels.PutPixel` | src/proc/colorizer.cpp:312-314 | writes one colour into bytes 3i, 3i+1, 3i+2 and leaves every other pixel as it was |
| `Palettes.MapsWellFormed` | src/proc/colorizer.cpp:165 | the registry holds ten palettes with at least two control points each; only "Quantized" (index 8) has a step count, 6 |
| `Palettes.MapsRegistry` | src/proc/colorizer.cpp:15-134 | `_maps` holds jet, hue, classic, grayscale, inv_grayscale, biomes, cold, warm, quantized and pattern at indices 0-9 (line 165); grayscale runs white to black and inv_grayscale is its reverse; quantized is the white-to-black ramp with 6 steps; hue starts and ends at red; pattern has 50 control points |
| `DepthColorizer.ShouldProcess` | src/proc/colorizer.cpp:231-240 | false for no frame, for a frameset and for a non-depth stream; true for every other single frame |
| `DepthColorizer.SelectStrategy` | src/proc/colorizer.cpp:433-446 | a disparity strategy iff the cached format is DISPARITY32; an equalized strategy iff `_equalize` |
| `DepthColorizer.PresetBandsDisjoint` | src/proc/colorizer.cpp:194-216 | the four tests \|val − k\| < 1e-6 are mutually exclusive, so at most one preset branch fires |
| `DepthColorizer.Colorizer.constructor` | src/proc/colorizer.cpp:150-173 | range [0, 6], equalization on, no cached profile, a zeroed histogram of MAX_DEPTH entries; palette 0, the colour-scheme option's default (line 173) |
| `DepthColorizer.Colorizer.OnPresetSet` | src/proc/colorizer.cpp:192-224 | the preset table: 0 → equalize, palette 0, range kept; 1 → (false, 0, 0, 6); 2 → (false, 1, 0.3, 1.5); 3 → (false, 0, 1, 16); any other value changes nothing; the palette index stays in [0, 9] |
| `DepthColorizer.Colorizer.ProcessFrame` | src/proc/colorizer.cpp:242-448 | refreshes the cached source and RGB8 target profiles only when the frame's profile identity differs; returns a fresh w·h·3 buffer filled by the strategy that `SelectStrategy` picks, with the histogram rebuilt only in equalized mode |
| `DepthColorizer.ProcessConsecutive` | src/proc/colorizer.cpp:244-247 | two consecutive frames of one profile: the second call leaves the cached profiles as the first call left them |

## Left out

- `color_map::get` (interpolation between control points, quantization into steps, clamping): it is in `colorizer.h`, which is not part of this model. It is the parameter `get`, and nothing is claimed about clamping.
- The float-to-byte casts `(uint8_t)c.x` etc.: `get` is taken to return bytes directly.
- `Strategies.EqualizedPosition`: computed as an exact ratio of integers. The source divides in `float`, and the rounding of that quotient is not modelled.
- `Strategies.MakeValueCroppedFrame`, `Strategies.MakeDisparityValueCroppedFrame`: the fixed-range positions `(d * depth_units - _min) / (_max - _min)` and `(d - _disparity_min) / (_disparity_max - _disparity_min)` are floating point and are opaque parameters. The source divides by zero when `_max == _min`, or in the disparity bounds when `_min == 0` (the default range). It adds `+ .5f` to both disparity bounds.
- Disparity calibration (`_d2d_convert_factor`, `_stereoscopic_depth`, `_depth_units`, `_stereo_baseline_meter`, `_focal_lenght_mm`): it needs sensor capability probing (`As`, `Is`, `extend_to`, `get_depth_scale`, `get_stereo_baseline_mm`, intrinsics), which calls into library code not visible here, and float arithmetic. Its effect reaches the model only through the disparity range-position parameter.
- `Histogram.UpdateDisparityHistogram`: a truncated disparity outside [0, MAX_DEPTH) makes the source index out of bounds, which is undefined behaviour. The model requires every truncated sample to be in range.
- Histogram entries and `w*h` are C `int`. The model uses unbounded integers, so counts of 2^31 or more samples are not modelled.
- Option registration, bounds, steps and descriptions (`ptr_option`, `register_option`, `set_description`), and the `_preset` field that the option writes before calling `on_set`: option framework code that is not visible here. `OnPresetSet` models the callback only. The invariant that the palette index stays in [0, 9] stands in for the colour-scheme option's bounds.
- `DepthColorizer.Colorizer.constructor`: the constructor's initialiser list does not set `_map_index`. The model starts it at 0, the default value the colour-scheme option is registered with (src/proc/colorizer.cpp:173). The member's declaration is in `colorizer.h`, which is not part of this model.
- `DepthColorizer.Colorizer.OnPresetSet`: the float constants `0.3f` and `1.5f` are modelled as the exact reals 0.3 and 1.5.
- Frame allocation (`allocate_video_frame`), the profile `clone` (only its stream, index and RGB8 format are kept; its new identity is the parameter `cloneId`), `reinterpret_cast` buffer access: library plumbing. The model requires that a frame's samples match its profile's format and that one profile identity names one profile.
- The stream filter set in the constructor (`RS2_STREAM_DEPTH`, `RS2_FORMAT_Z16`) and the processing-block base class that calls `should_process` and `process_frame`: not part of the shown file.
