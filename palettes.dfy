// The ten palettes the colorizer offers, as constant control-point tables.
// How a palette turns a position into a colour (interpolation between the
// control points, quantization into steps) belongs to color_map::get, which
// is not part of this model: the strategies take it as a parameter.

module Palettes {
  import opened Pixels
  import opened Optional

  /**
    * A palette: its control points, first to last, and the number of steps
    * it was registered with (None: the color_map default; only "Quantized"
    * passes one, 6).
    */
  datatype ColorMap = ColorMap(points: seq<Rgb>, steps: Option<nat>)

  /** "Hue" (colorizer.cpp line 15). */
  const Hue: ColorMap := ColorMap([
      Rgb(255, 0, 0),
      Rgb(255, 255, 0),
      Rgb(0, 255, 0),
      Rgb(0, 255, 255),
      Rgb(0, 0, 255),
      Rgb(255, 0, 255),
      Rgb(255, 0, 0)
    ], None)

  /** "Jet", the default (colorizer.cpp line 25). */
  const Jet: ColorMap := ColorMap([
      Rgb(0, 0, 255),
      Rgb(0, 255, 255),
      Rgb(255, 255, 0),
      Rgb(255, 0, 0),
      Rgb(50, 0, 0)
    ], None)

  /** "Classic" (colorizer.cpp line 33). */
  const Classic: ColorMap := ColorMap([
      Rgb(30, 77, 203),
      Rgb(25, 60, 192),
      Rgb(45, 117, 220),
      Rgb(204, 108, 191),
      Rgb(196, 57, 178),
      Rgb(198, 33, 24)
    ], None)

  /** "White to Black" (colorizer.cpp line 42). */
  const Grayscale: ColorMap := ColorMap([
      Rgb(255, 255, 255),
      Rgb(0, 0, 0)
    ], None)

  /** "Black to White" (colorizer.cpp line 47). */
  const InvGrayscale: ColorMap := ColorMap([
      Rgb(0, 0, 0),
      Rgb(255, 255, 255)
    ], None)

  /** "Bio" (colorizer.cpp line 52). */
  const Biomes: ColorMap := ColorMap([
      Rgb(0, 0, 204),
      Rgb(204, 230, 255),
      Rgb(255, 255, 153),
      Rgb(170, 255, 128),
      Rgb(0, 153, 0),
      Rgb(230, 242, 255)
    ], None)

  /** "Cold" (colorizer.cpp line 61). */
  const Cold: ColorMap := ColorMap([
      Rgb(230, 247, 255),
      Rgb(0, 92, 230),
      Rgb(0, 179, 179),
      Rgb(0, 51, 153),
      Rgb(0, 5, 15)
    ], None)

  /** "Warm" (colorizer.cpp line 69). */
  const Warm: ColorMap := ColorMap([
      Rgb(255, 255, 230),
      Rgb(255, 204, 0),
      Rgb(255, 136, 77),
      Rgb(255, 51, 0),
      Rgb(128, 0, 0),
      Rgb(10, 0, 0)
    ], None)

  /** "Quantized": white to black in 6 steps (colorizer.cpp line 78). */
  const Quantized: ColorMap := ColorMap([
      Rgb(255, 255, 255),
      Rgb(0, 0, 0)
    ], Some(6))

  /** "Pattern": 50 control points alternating white and black, starting white (colorizer.cpp line 83). */
  const Pattern: ColorMap :=
    ColorMap([
      Rgb(255, 255, 255), Rgb(0, 0, 0),
      Rgb(255, 255, 255), Rgb(0, 0, 0),
      Rgb(255, 255, 255), Rgb(0, 0, 0),
      Rgb(255, 255, 255), Rgb(0, 0, 0),
      Rgb(255, 255, 255), Rgb(0, 0, 0),
      Rgb(255, 255, 255), Rgb(0, 0, 0),
      Rgb(255, 255, 255), Rgb(0, 0, 0),
      Rgb(255, 255, 255), Rgb(0, 0, 0),
      Rgb(255, 255, 255), Rgb(0, 0, 0),
      Rgb(255, 255, 255), Rgb(0, 0, 0),
      Rgb(255, 255, 255), Rgb(0, 0, 0),
      Rgb(255, 255, 255), Rgb(0, 0, 0),
      Rgb(255, 255, 255), Rgb(0, 0, 0),
      Rgb(255, 255, 255), Rgb(0, 0, 0),
      Rgb(255, 255, 255), Rgb(0, 0, 0),
      Rgb(255, 255, 255), Rgb(0, 0, 0),
      Rgb(255, 255, 255), Rgb(0, 0, 0),
      Rgb(255, 255, 255), Rgb(0, 0, 0),
      Rgb(255, 255, 255), Rgb(0, 0, 0),
      Rgb(255, 255, 255), Rgb(0, 0, 0),
      Rgb(255, 255, 255), Rgb(0, 0, 0),
      Rgb(255, 255, 255), Rgb(0, 0, 0),
      Rgb(255, 255, 255), Rgb(0, 0, 0),
      Rgb(255, 255, 255), Rgb(0, 0, 0),
      Rgb(255, 255, 255), Rgb(0, 0, 0)
    ], None)

  /** The palette table, indexed by the colour-scheme option: 0 "Jet" through 9 "Pattern". */
  const Maps: seq<ColorMap> :=
    [Jet, Hue, Classic, Grayscale, InvGrayscale, Biomes, Cold, Warm, Quantized, Pattern]

  /** A palette index the colour-scheme option admits: [0, |Maps| - 1]. */
  predicate ValidMapIndex(i: int)
  {
    0 <= i < |Maps|
  }

  /**
    * Ten palettes, each with at least two control points; only the quantized
    * one carries a step count.
    */
  lemma MapsWellFormed()
    ensures |Maps| == 10
    ensures forall i :: 0 <= i < |Maps| ==> |Maps[i].points| >= 2
    ensures forall i :: 0 <= i < |Maps| ==> (Maps[i].steps.Some? <==> i == 8)
    ensures Maps[8].steps == Some(6)
  {
  }

  /**
    * The registry in option order, and the shape of the tables a reader can
    * check at a glance: the two grayscale ramps are each other's reverse,
    * "Quantized" is the white-to-black ramp with 6 steps, "Hue" is a closed
    * cycle from red back to red, and "Pattern" has 50 control points.
    */
  lemma MapsRegistry()
    ensures Maps[0] == Jet && Maps[1] == Hue && Maps[2] == Classic && Maps[3] == Grayscale
    ensures Maps[4] == InvGrayscale && Maps[5] == Biomes && Maps[6] == Cold && Maps[7] == Warm
    ensures Maps[8] == Quantized && Maps[9] == Pattern
    ensures Grayscale.points == [Rgb(255, 255, 255), Black]
    ensures InvGrayscale.points == [Grayscale.points[1], Grayscale.points[0]]
    ensures Quantized.points == Grayscale.points && Quantized.steps == Some(6)
    ensures Hue.points[0] == Hue.points[|Hue.points| - 1] == Rgb(255, 0, 0)
    ensures |Pattern.points| == 50
  {
  }
}
