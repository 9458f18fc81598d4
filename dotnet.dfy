/**
 * The .NET conventions the save system is written against: fixed-width
 * integers with unchecked wrap-around, nullable strings and the exceptions
 * the modelled code can raise.
 */
module DotNet {
  import opened Wrappers

  const TWO_32: int := 0x1_0000_0000

  /** C# `int`. */
  newtype int32 = x: int | -0x8000_0000 <= x < 0x8000_0000

  /** C# `long`. */
  newtype int64 = x: int | -0x8000_0000_0000_0000 <= x < 0x8000_0000_0000_0000

  /** A C# `string` reference, which may be null. */
  type NullableString = Option<string>

  /** The exceptions of the modelled code: `NotImplementedException` and a failed stream read. */
  datatype Exception = NotImplemented | MalformedStream

  /** `s ?? ""` */
  function OrEmpty(s: NullableString): string {
    match s
    case Some(v) => v
    case None => ""
  }

  /**
   * An unchecked conversion to `int`: the low 32 bits of `x` read as two's
   * complement. This is what `(int)` does to a `long` and what unchecked
   * `int` arithmetic does to an overflowing result.
   */
  function Wrap32(x: int): (r: int32)
    ensures (r as int - x) % TWO_32 == 0
    ensures -0x8000_0000 <= x < 0x8000_0000 ==> r as int == x
  {
    ((x + 0x8000_0000) % TWO_32 - 0x8000_0000) as int32
  }

  /** The 32 bits of an `int`. */
  function Bits(x: int32): bv32 {
    ((x as int) % TWO_32) as bv32
  }

  /** `a ^ b` on two `int` values. */
  function Xor32(a: int32, b: int32): int32 {
    Wrap32((Bits(a) ^ Bits(b)) as int)
  }
}
