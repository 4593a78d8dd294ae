/** The fixed-width scalar types of the native interface. */
module FfiTypes {

  type u8 = x: int | 0 <= x < 0x100
  type u32 = x: int | 0 <= x < 0x1_0000_0000
  type i32 = x: int | -0x8000_0000 <= x < 0x8000_0000
  type i64 = x: int | -0x8000_0000_0000_0000 <= x < 0x8000_0000_0000_0000

  /** An IEEE-754 double carried as its 64-bit pattern: the layer only copies
      prices, so equality of bit patterns is the equality that matters. */
  type f64 = bv64

  /** A fixed-capacity `c_char` buffer, read as bytes. */
  type CBuffer = seq<bv8>

  /** Number of order-book levels on each side. */
  const DEPTH: nat := 10

  type PriceLevels = s: seq<f64> | |s| == DEPTH witness [0, 0, 0, 0, 0, 0, 0, 0, 0, 0]
  type QtyLevels = s: seq<i64> | |s| == DEPTH witness [0, 0, 0, 0, 0, 0, 0, 0, 0, 0]
}
