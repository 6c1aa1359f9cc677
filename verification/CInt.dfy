/** Integer division as C++ performs it: the quotient is truncated toward zero and the remainder takes the sign of
    the dividend.  Dafny's own `/` and `%` are Euclidean. */
module CInt {

  function Quot(a: int, b: int): int
    requires b > 0
  {
    if a < 0 && a % b != 0 then a / b + 1 else a / b
  }

  function Rem(a: int, b: int): int
    requires b > 0
  {
    if a < 0 && a % b != 0 then a % b - b else a % b
  }

  predicate FitsInt32(x: int) {
    -0x8000_0000 <= x < 0x8000_0000
  }
}
