/** Values shared by every part of the model. */
module Common {

  datatype Option<+T> = None | Some(value: T)

  /** One half of a blue/green pair. */
  datatype Color = Blue | Green

  function Flip(c: Color): Color {
    match c
    case Blue => Green
    case Green => Blue
  }

  type Service = string

  const U16 := 0x1_0000

  /** A 16-bit unsigned port number. */
  type Port = n: int | 0 <= n < U16

  /** u16 addition as an optimised build performs it: it wraps. */
  function AddPort(a: Port, b: Port): Port {
    (a + b) % U16
  }
}
