/**
  The C integer conversions the modelled code depends on.
 */
module CInts {

  const TWO32 := 0x1_0000_0000
  const TWO64 := 0x1_0000_0000_0000_0000

  /** Conversion to the C type int. */
  function ToInt32(x: int): int {
    var y := x % 0x1_0000_0000;
    if y >= 0x8000_0000 then y - 0x1_0000_0000 else y
  }

  /** Conversion to the C type long. */
  function ToInt64(x: int): int {
    var y := x % 0x1_0000_0000_0000_0000;
    if y >= 0x8000_0000_0000_0000 then y - 0x1_0000_0000_0000_0000 else y
  }
}
