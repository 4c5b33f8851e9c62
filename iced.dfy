/** The toolkit value types the style engine produces: colours with four real
    channels, backgrounds, two-dimensional vectors, and the toolkit's colour
    constructors and constants. Floating-point channels are modelled as reals. */
module Iced {

  /** An 8-bit unsigned integer, Rust's `u8`. */
  type uint8 = x: int | 0 <= x < 0x100

  /** A 16-bit unsigned integer, Rust's `u16`. */
  type uint16 = x: int | 0 <= x < 0x1_0000

  /** `iced::Color`: red, green, blue and alpha channels. */
  datatype Color = Color(r: real, g: real, b: real, a: real)

  /** `iced::Background`; its only variant is a plain colour. */
  datatype Background = BgColor(color: Color)

  /** `iced::Vector`. */
  datatype Vector = Vector(x: real, y: real)

  const ZeroVector := Vector(0.0, 0.0)

  const Black := Color(0.0, 0.0, 0.0, 1.0)
  const White := Color(1.0, 1.0, 1.0, 1.0)
  const Transparent := Color(0.0, 0.0, 0.0, 0.0)

  function Add(u: Vector, v: Vector): Vector {
    Vector(u.x + v.x, u.y + v.y)
  }

  /** `Color::from_rgb`: an opaque colour. */
  function FromRgb(r: real, g: real, b: real): Color {
    Color(r, g, b, 1.0)
  }

  /** `Color::from_rgba`. */
  function FromRgba(r: real, g: real, b: real, a: real): Color {
    Color(r, g, b, a)
  }

  /** `Color::from_rgba8`: byte channels scaled to [0, 1], alpha given as a real. */
  function FromRgba8(r: uint8, g: uint8, b: uint8, a: real): Color {
    Color(r as real / 255.0, g as real / 255.0, b as real / 255.0, a)
  }

  /** `Color::from_rgb8`: `from_rgba8` with alpha 1. */
  function FromRgb8(r: uint8, g: uint8, b: uint8): Color {
    FromRgba8(r, g, b, 1.0)
  }

  /** `[r, g, b, a].into()` for a four-element array. */
  function FromArray4(r: real, g: real, b: real, a: real): Color {
    Color(r, g, b, a)
  }

  /** `[r, g, b].into()` for a three-element array. */
  function FromArray3(r: real, g: real, b: real): Color {
    Color(r, g, b, 1.0)
  }

  /** The same colour with its alpha channel multiplied by `f`. */
  function ScaleAlpha(c: Color, f: real): Color {
    c.(a := c.a * f)
  }
}
