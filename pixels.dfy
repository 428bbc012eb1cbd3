// Output pixels of the colorizer: RGB8, three bytes per pixel, row-major.

module Pixels {

  /** One channel of an RGB8 image. */
  newtype byte = x: int | 0 <= x < 256

  /** A colour as the palette lookup hands it back and as it is stored. */
  datatype Rgb = Rgb(r: byte, g: byte, b: byte)

  /** The colour written for a sample with no depth (value zero). */
  const Black: Rgb := Rgb(0, 0, 0)

  /** The colour stored at pixel `i` of an RGB8 buffer: bytes 3i, 3i+1 and 3i+2. */
  function PixelAt(buf: seq<byte>, i: int): Rgb
    requires 0 <= i && 3 * i + 2 < |buf|
  {
    Rgb(buf[3 * i], buf[3 * i + 1], buf[3 * i + 2])
  }

  /** Writes colour `c` into pixel `i`, leaving every other pixel of the buffer as it was. */
  method PutPixel(buf: array<byte>, i: nat, c: Rgb)
    requires 3 * i + 2 < buf.Length
    modifies buf
    ensures PixelAt(buf[..], i) == c
    ensures forall j :: 0 <= j && 3 * j + 2 < buf.Length && j != i ==> PixelAt(buf[..], j) == PixelAt(old(buf[..]), j)
  {
    buf[i * 3 + 0] := c.r;
    buf[i * 3 + 1] := c.g;
    buf[i * 3 + 2] := c.b;
  }
}
