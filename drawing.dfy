/** The System.Drawing value types the application computes with. Coordinates are screen
  * pixels, far below the 32-bit limits, so they are unbounded integers here. */
module Drawing {
  datatype Point = Point(x: int, y: int)

  /** Rectangle(X, Y, Width, Height) */
  datatype Rect = Rect(x: int, y: int, width: int, height: int)

  /** A colour channel. */
  type Byte = c: int | 0 <= c < 256

  /** A pixel as Bitmap.GetPixel returns it (alpha is never read). */
  datatype Rgb = Rgb(r: Byte, g: Byte, b: Byte)
}
