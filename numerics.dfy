/**
 * The System.Numerics values the sprite batch copies.  A `float` is kept as
 * its raw IEEE-754 single-precision bit pattern: the batch never computes
 * with it, it only stores it and hands its bytes to the GPU.
 */
module Numerics {

  /**
   * A 32-bit IEEE-754 float, as the four bytes of its bit pattern in memory
   * order (little-endian: `b0` holds the lowest eight bits).
   */
  datatype Float = Float(b0: bv8, b1: bv8, b2: bv8, b3: bv8)

  /** 0.0f, bit pattern 0x0000_0000 */
  const ZERO := Float(0x00, 0x00, 0x00, 0x00)
  /** 1.0f, bit pattern 0x3F80_0000 */
  const ONE := Float(0x00, 0x00, 0x80, 0x3F)

  datatype Vector2 = Vector2(x: Float, y: Float)
  datatype Vector3 = Vector3(x: Float, y: Float, z: Float)
  datatype Vector4 = Vector4(x: Float, y: Float, z: Float, w: Float)

  /** `new Vector4(1)`: opaque white. */
  const WHITE := Vector4(ONE, ONE, ONE, ONE)
  /** `Color.Black` as a float colour: (0, 0, 0, 1). */
  const BLACK := Vector4(ZERO, ZERO, ZERO, ONE)

  /** The byte image of a float as it lies in GPU-visible memory. */
  function FloatBytes(f: Float): (r: seq<bv8>)
    ensures |r| == 4
  {
    [f.b0, f.b1, f.b2, f.b3]
  }
}
