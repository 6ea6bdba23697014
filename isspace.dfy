/** `isspace` over `c_int`. */
module Isspace {

  /** The six C whitespace characters: space, \t, \n, \r, \v (0x0b), \f (0x0c). */
  predicate IsWhite(c: int)
  {
    c in {' ' as int, '\t' as int, '\n' as int, '\r' as int, 0x0b, 0x0c}
  }

  function Isspace(c: int): (r: int)
    ensures r == 0 || r == 1
    ensures r == 1 <==> IsWhite(c)
  {
    if c == ' ' as int || c == '\t' as int || c == '\n' as int
       || c == '\r' as int || c == 0x0b || c == 0x0c
    then 1 else 0
  }

  /** Whitespace is exactly 0x20 and the contiguous control range 0x09..0x0d. */
  lemma WhitespaceRange(c: int)
    ensures Isspace(c) == 1 <==> c == 0x20 || 0x09 <= c <= 0x0d
  {
  }

  lemma Examples()
    ensures Isspace(' ' as int) == 1 && Isspace('\t' as int) == 1
    ensures Isspace('\n' as int) == 1 && Isspace('\r' as int) == 1
    ensures Isspace(0x0c) == 1 && Isspace(0x0b) == 1
    ensures Isspace('0' as int) == 0 && Isspace('a' as int) == 0
  {
  }
}
