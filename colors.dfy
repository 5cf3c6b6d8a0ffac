/**
 * Colours as the widget uses them: an alpha channel and three colour
 * channels, each a byte. Parsing an HTML colour string ("#FF0000") is done by
 * a drawing library that is not part of this model; the controller receives
 * that conversion as a function.
 */
module Colors {

  /** A colour channel value, 0..255. */
  type Byte = x: int | 0 <= x < 256

  /** A colour with alpha a and channels r, g, b. */
  datatype Rgba = Rgba(a: Byte, r: Byte, g: Byte, b: Byte)

  /** Pure black as the hourglass colour rule tests it: alpha is ignored. */
  predicate IsBlack(c: Rgba) {
    c.r == 0 && c.g == 0 && c.b == 0
  }

  /** The named colours of the drawing library that the hourglass rule uses. */
  const Green: Rgba := Rgba(255, 0, 128, 0)
  const Yellow: Rgba := Rgba(255, 255, 255, 0)
  const Red: Rgba := Rgba(255, 255, 0, 0)
}
