/**
 * The `ObjectOutput`/`ObjectInput` streams of the serialisers, seen as
 * sequences of typed tokens rather than bytes.  A token `Obj` carries a
 * nested value whose own encoding is not part of this model (a calling
 * context stack, a per-class mutation record).
 */
module Streams {

  datatype Token<X> =
    | Utf(s: string)      // writeUTF / readUTF
    | Short(bits: int)    // writeShort: the low 16 bits of the value, 0 .. 65535
    | Int(v: int)         // writeInt / readInt
    | Bool(b: bool)       // writeBoolean / readBoolean
    | Obj(x: X)           // a nested object written by its own serialiser

  /** Why reading a stream fails. */
  datatype StreamError =
    | EndOfStream            // a read found a missing or different token (EOFException / IOException)
    | NegativeArraySize      // an array was allocated with a negative length
    | IllegalCapacity        // a HashSet was created with a negative initial capacity
    | NullPointer            // writeUTF was handed a null string

  const SHORT_RANGE: int := 65536

  /** `writeShort(v)`: only the low 16 bits of `v` reach the stream. */
  function ShortBits(v: int): (b: int)
    ensures 0 <= b < SHORT_RANGE
    ensures (b - v) % SHORT_RANGE == 0
  {
    v % SHORT_RANGE
  }

  /** `readShort()`: the 16 bits read back as a signed two's-complement value. */
  function SignedShort(b: int): (v: int)
    requires 0 <= b < SHORT_RANGE
    ensures -32768 <= v <= 32767
    ensures (v - b) % SHORT_RANGE == 0
  {
    if b >= 32768 then b - SHORT_RANGE else b
  }

  /** A value survives `writeShort` followed by `readShort` exactly when it fits in 16 signed bits. */
  lemma ShortRoundTrip(v: int)
    ensures SignedShort(ShortBits(v)) == v <==> -32768 <= v <= 32767
  {
    if -32768 <= v < 0 {
      assert ShortBits(v) == v + SHORT_RANGE;
    }
  }
}
