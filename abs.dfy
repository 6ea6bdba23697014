/** `abs` over `c_int`. Rust's `i32::abs` overflows on `INT_MIN`, so that
    input is excluded. */
module Abs {
  const INT_MIN: int := -0x8000_0000
  const INT_MAX: int := 0x7fff_ffff

  function Abs(i: int): (r: int)
    requires INT_MIN < i <= INT_MAX
    ensures 0 <= r <= INT_MAX
    ensures i >= 0 ==> r == i
    ensures i < 0 ==> r == -i
  {
    if i < 0 then -i else i
  }

  lemma Examples()
    ensures Abs(-2) == 2 && Abs(3) == 3 && Abs(0) == 0
  {
  }
}
