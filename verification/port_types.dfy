/** Machine integer types and the 32-bit modular arithmetic shared by the port. */
module PortTypes {

  const Two32: int := 0x1_0000_0000

  /** `uint32_t`, and the microsecond and tick values of the port. */
  type Uint32 = x: int | 0 <= x < 0x1_0000_0000

  /** `uint16_t`, the width of the synthesiser's frequency fields. */
  type Uint16 = x: int | 0 <= x < 0x1_0000

  /** `uint8_t`. */
  type Byte = x: int | 0 <= x < 0x100

  /** `int8_t`. */
  type Int8 = x: int | -0x80 <= x < 0x80

  datatype Option<T> = None | Some(value: T)

  /** An opaque, non-null function-pointer value. */
  type CallbackRef = nat

  /** An opaque `void*` context handed back to a callback unmodified. */
  type ContextRef = nat

  /** The `(int8_t)` cast of a byte: two's-complement reinterpretation. */
  function Int8Of(b: Byte): (v: Int8)
    ensures (v - b) % 0x100 == 0
    ensures b < 0x80 <==> v >= 0
  {
    if b < 0x80 then b else b - 0x100
  }

  /** The `(uint8_t)` cast of a signed byte. */
  function ByteOf(v: Int8): (b: Byte)
    ensures (v - b) % 0x100 == 0
  {
    if v < 0 then v + 0x100 else v
  }

  /** The two casts are inverse to each other. */
  lemma Int8ByteRoundTrip(v: Int8, b: Byte)
    ensures Int8Of(ByteOf(v)) == v
    ensures ByteOf(Int8Of(b)) == b
  {
  }

  /** Unsigned 32-bit addition of a (possibly negative) offset: C's wrap-around. */
  function Add32(a: Uint32, b: int): (r: Uint32)
    ensures (r - a - b) % Two32 == 0
  {
    (a + b) % Two32
  }

  /** Unsigned 32-bit subtraction: C's wrap-around. */
  function Sub32(a: Uint32, b: int): (r: Uint32)
    ensures (r - a + b) % Two32 == 0
  {
    (a - b) % Two32
  }
}
