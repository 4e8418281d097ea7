/** Vocabulary shared by every module: optional values, results and the
    saturating 64-bit arithmetic the runtime uses on wall-clock readings. */
module Common {

  datatype Option<+T> = None | Some(value: T) {
    function GetOr(default: T): T {
      if Some? then value else default
    }
  }

  datatype Result<+T, +E> = Ok(value: T) | Err(error: E)

  type Byte = b: int | 0 <= b < 256
  type Bytes = seq<Byte>

  const I64_MAX: int := 0x7fff_ffff_ffff_ffff
  const I64_MIN: int := -0x8000_0000_0000_0000

  /** The 64-bit integer closest to `x`. */
  function Clamp64(x: int): (r: int)
    ensures -9_223_372_036_854_775_808 <= r <= 9_223_372_036_854_775_807
    ensures -9_223_372_036_854_775_808 <= x <= 9_223_372_036_854_775_807 ==> r == x
    ensures r < x ==> r == 9_223_372_036_854_775_807
    ensures r > x ==> r == -9_223_372_036_854_775_808
  {
    if x > I64_MAX then I64_MAX else if x < I64_MIN then I64_MIN else x
  }

  /** `i64::saturating_add`. */
  function SatAdd(a: int, b: int): int {
    Clamp64(a + b)
  }

  /** `i64::saturating_sub`. */
  function SatSub(a: int, b: int): int {
    Clamp64(a - b)
  }
}
