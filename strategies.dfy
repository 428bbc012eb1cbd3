// The four per-pixel strategies of the colorizer. Each walks the w*h samples
// of a frame in order and writes three bytes per pixel into an RGB8 buffer of
// w*h*3 bytes (stride w*3): black for a zero sample, otherwise the active
// palette's colour at a position in the palette. The equalized strategies
// take the position from the frame's cumulative histogram; the fixed-range
// ones from a floating-point formula over the configured range, which is a
// parameter here.

module Strategies {
  import opened Pixels
  import opened Histogram
  import opened Palettes

  /** color_map::get: the colour a palette gives a position (interpolation and quantization are not modelled). */
  type Lookup = (ColorMap, real) -> Rgb

  /**
    * Position of a nonzero 16-bit sample in the equalized palette: its
    * cumulative count over the number of nonzero samples. Never a division by
    * zero, and always in (0, 1].
    */
  function EqualizedPosition(s: seq<int>, n: nat, d: int): (p: real)
    requires InRange(s, n) && 0 < d && d in s
    ensures 0.0 < p <= 1.0
  {
    CumulativeBounds(s, n, d);
    var num, den := Cumulative(s, n)[d], Cumulative(s, n)[n - 1];
    RatioInUnit(num as real, den as real);
    num as real / den as real
  }

  /** A count over a larger count, both at least 1, lies in (0, 1]. */
  lemma RatioInUnit(a: real, b: real)
    requires 1.0 <= a <= b
    ensures 0.0 < a / b <= 1.0
  {
    assert a / b * b == a;
  }

  /** The position grows with the sample, strictly between two samples that occur in the frame. */
  lemma EqualizedPositionMonotone(s: seq<int>, n: nat, d1: int, d2: int)
    requires InRange(s, n) && 0 < d1 <= d2 && d1 in s && d2 in s
    ensures EqualizedPosition(s, n, d1) <= EqualizedPosition(s, n, d2)
    ensures d1 < d2 ==> EqualizedPosition(s, n, d1) < EqualizedPosition(s, n, d2)
  {
    CumulativeBounds(s, n, d2);
    CumulativeMonotone(s, n, d1, d2);
    if d1 < d2 {
      CumulativeStrict(s, n, d1, d2);
    }
    RatioMonotone(Cumulative(s, n)[d1] as real, Cumulative(s, n)[d2] as real, Cumulative(s, n)[n - 1] as real);
  }

  /** Dividing by the same positive count keeps the order of the numerators. */
  lemma RatioMonotone(a1: real, a2: real, b: real)
    requires 0.0 < b && a1 <= a2
    ensures a1 / b <= a2 / b
    ensures a1 < a2 ==> a1 / b < a2 / b
  {
    assert (a2 / b - a1 / b) * b == a2 - a1;
  }

  /** Colour of a 16-bit sample under histogram equalization. */
  function EqualizedPixel(s: seq<int>, n: nat, d: int, cm: ColorMap, get: Lookup): Rgb
    requires InRange(s, n) && d in s
  {
    if d == 0 then Black else get(cm, EqualizedPosition(s, n, d))
  }

  /**
    * The fixed-range formula: the palette position of a sample given the
    * configured minimum and maximum range (floating-point arithmetic over the
    * frame's depth units and the disparity calibration, not modelled).
    */
  type RangePosition<-T> = (real, real, T) -> real

  /** Colour of a 16-bit sample under the fixed range [lo, hi]. */
  function CroppedPixel(d: int, cm: ColorMap, get: Lookup, position: RangePosition<int>, lo: real, hi: real): Rgb
  {
    if d == 0 then Black else get(cm, position(lo, hi, d))
  }

  /** Colour of a float disparity sample under equalization: the truncated sample decides. */
  function DisparityEqualizedPixel(s: seq<real>, n: nat, x: real, cm: ColorMap, get: Lookup): Rgb
    requires InRange(Truncated(s), n) && x in s
  {
    var d := TruncateToInt(x);
    if d == 0 then Black
    else
      assert d in Truncated(s) by {
        var i :| 0 <= i < |s| && s[i] == x;
        assert Truncated(s)[i] == d;
      }
      get(cm, EqualizedPosition(Truncated(s), n, d))
  }

  /** Colour of a float disparity sample under a fixed range; the float itself is tested for zero. */
  function DisparityCroppedPixel(x: real, cm: ColorMap, get: Lookup, position: RangePosition<real>,
                                 lo: real, hi: real): Rgb
  {
    if x == 0.0 then Black else get(cm, position(lo, hi, x))
  }

  /** Two pixels with equal 16-bit samples get the same equalized colour: it depends on the value alone. */
  lemma EqualSamplesEqualColour(s: seq<int>, n: nat, i: int, j: int, cm: ColorMap, get: Lookup)
    requires InRange(s, n) && 0 <= i < |s| && 0 <= j < |s| && s[i] == s[j]
    ensures EqualizedPixel(s, n, s[i], cm, get) == EqualizedPixel(s, n, s[j], cm, get)
  {
  }

  /**
    * Two disparity pixels whose samples truncate to the same integer get the
    * same equalized colour, even when the floats differ.
    */
  lemma EqualTruncationEqualColour(ds: seq<real>, n: nat, i: int, j: int, cm: ColorMap, get: Lookup)
    requires InRange(Truncated(ds), n) && 0 <= i < |ds| && 0 <= j < |ds|
    requires TruncateToInt(ds[i]) == TruncateToInt(ds[j])
    ensures DisparityEqualizedPixel(ds, n, ds[i], cm, get) == DisparityEqualizedPixel(ds, n, ds[j], cm, get)
  {
  }

  /** A zero sample is black in every strategy, so an all-zero frame gives an all-black image. */
  lemma ZeroSampleIsBlack(s: seq<int>, n: nat, ds: seq<real>, x: real, cm: ColorMap, get: Lookup,
                          dp: RangePosition<int>, xp: RangePosition<real>, lo: real, hi: real)
    requires InRange(s, n) && 0 in s
    requires InRange(Truncated(ds), n) && x in ds && -1.0 < x < 1.0
    ensures EqualizedPixel(s, n, 0, cm, get) == Black
    ensures CroppedPixel(0, cm, get, dp, lo, hi) == Black
    ensures DisparityEqualizedPixel(ds, n, x, cm, get) == Black
    ensures DisparityCroppedPixel(0.0, cm, get, xp, lo, hi) == Black
  {
    assert TruncateToInt(x) == 0;
  }

  /**
    * A disparity strictly between 0 and 1 truncates to 0: black under
    * equalization, yet coloured under a fixed range, which tests the float.
    */
  lemma SubUnitDisparity(ds: seq<real>, n: nat, x: real, cm: ColorMap, get: Lookup,
                         xp: RangePosition<real>, lo: real, hi: real)
    requires InRange(Truncated(ds), n) && x in ds && 0.0 < x < 1.0
    ensures DisparityEqualizedPixel(ds, n, x, cm, get) == Black
    ensures DisparityCroppedPixel(x, cm, get, xp, lo, hi) == get(cm, xp(lo, hi, x))
  {
    assert TruncateToInt(x) == 0;
  }

  /**
    * Histogram-equalized 16-bit depth: rebuilds `hist` from the frame, then
    * colours every nonzero pixel by its equalized position.
    */
  method MakeEqualizedHistogram(hist: array<int>, depth: seq<int>, w: nat, h: nat,
                                cm: ColorMap, get: Lookup, rgb: array<byte>)
    requires hist.Length >= 2
    requires |depth| == w * h && InRange(depth, hist.Length)
    requires rgb.Length == 3 * |depth|
    modifies hist, rgb
    ensures hist[..] == Cumulative(depth, hist.Length)
    ensures forall i :: 0 <= i < |depth| ==>
              PixelAt(rgb[..], i) == EqualizedPixel(depth, hist.Length, depth[i], cm, get)
  {
    UpdateHistogram(hist, depth, w, h);
    var n := hist.Length;
    var count := w * h;
    var i := 0;
    while i < count
      invariant 0 <= i <= count
      invariant hist[..] == Cumulative(depth, n)
      invariant forall j :: 0 <= j < i ==> PixelAt(rgb[..], j) == EqualizedPixel(depth, n, depth[j], cm, get)
    {
      var d := depth[i];
      if d != 0 {
        CumulativeBounds(depth, n, d);
        var f := hist[d] as real / hist[n - 1] as real;
        var c := get(cm, f);
        PutPixel(rgb, i, c);
      } else {
        PutPixel(rgb, i, Black);
      }
      i := i + 1;
    }
  }

  /** Fixed-range 16-bit depth over [lo, hi]: colours every nonzero pixel at its range position. */
  method MakeValueCroppedFrame(depth: seq<int>, w: nat, h: nat,
                               cm: ColorMap, get: Lookup, position: RangePosition<int>,
                               lo: real, hi: real, rgb: array<byte>)
    requires |depth| == w * h && rgb.Length == 3 * |depth|
    modifies rgb
    ensures forall i :: 0 <= i < |depth| ==>
              PixelAt(rgb[..], i) == CroppedPixel(depth[i], cm, get, position, lo, hi)
  {
    var count := w * h;
    var i := 0;
    while i < count
      invariant 0 <= i <= count
      invariant forall j :: 0 <= j < i ==> PixelAt(rgb[..], j) == CroppedPixel(depth[j], cm, get, position, lo, hi)
    {
      var d := depth[i];
      if d != 0 {
        var f := position(lo, hi, d);
        var c := get(cm, f);
        PutPixel(rgb, i, c);
      } else {
        PutPixel(rgb, i, Black);
      }
      i := i + 1;
    }
  }

  /**
    * Histogram-equalized float disparity: rebuilds `hist` from the truncated
    * samples, then colours every pixel whose truncated sample is nonzero.
    */
  method MakeDisparityEqualizedHistogram(hist: array<int>, disparity: seq<real>, w: nat, h: nat,
                                         cm: ColorMap, get: Lookup, rgb: array<byte>)
    requires hist.Length >= 2
    requires |disparity| == w * h && InRange(Truncated(disparity), hist.Length)
    requires rgb.Length == 3 * |disparity|
    modifies hist, rgb
    ensures hist[..] == Cumulative(Truncated(disparity), hist.Length)
    ensures forall i :: 0 <= i < |disparity| ==>
              PixelAt(rgb[..], i) == DisparityEqualizedPixel(disparity, hist.Length, disparity[i], cm, get)
  {
    UpdateDisparityHistogram(hist, disparity, w, h);
    var n := hist.Length;
    ghost var t := Truncated(disparity);
    var count := w * h;
    var i := 0;
    while i < count
      invariant 0 <= i <= count
      invariant hist[..] == Cumulative(t, n)
      invariant forall j :: 0 <= j < i ==>
                  PixelAt(rgb[..], j) == DisparityEqualizedPixel(disparity, n, disparity[j], cm, get)
    {
      var d := TruncateToInt(disparity[i]);
      if d != 0 {
        assert t[i] == d;
        CumulativeBounds(t, n, d);
        var f := hist[d] as real / hist[n - 1] as real;
        var c := get(cm, f);
        PutPixel(rgb, i, c);
      } else {
        PutPixel(rgb, i, Black);
      }
      i := i + 1;
    }
  }

  /** Fixed-range float disparity over [lo, hi]: colours every nonzero pixel at its range position. */
  method MakeDisparityValueCroppedFrame(disparity: seq<real>, w: nat, h: nat,
                                        cm: ColorMap, get: Lookup, position: RangePosition<real>,
                                        lo: real, hi: real, rgb: array<byte>)
    requires |disparity| == w * h && rgb.Length == 3 * |disparity|
    modifies rgb
    ensures forall i :: 0 <= i < |disparity| ==>
              PixelAt(rgb[..], i) == DisparityCroppedPixel(disparity[i], cm, get, position, lo, hi)
  {
    var count := w * h;
    var i := 0;
    while i < count
      invariant 0 <= i <= count
      invariant forall j :: 0 <= j < i ==>
                  PixelAt(rgb[..], j) == DisparityCroppedPixel(disparity[j], cm, get, position, lo, hi)
    {
      var x := disparity[i];
      if x != 0.0 {
        var f := position(lo, hi, x);
        var c := get(cm, f);
        PutPixel(rgb, i, c);
      } else {
        PutPixel(rgb, i, Black);
      }
      i := i + 1;
    }
  }
}
