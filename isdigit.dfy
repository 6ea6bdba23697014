/** `isdigit` over `c_int`. */
module Isdigit {

  function Isdigit(c: int): (r: int)
    ensures r == 0 || r == 1
    ensures r == 1 <==> c in {48, 49, 50, 51, 52, 53, 54, 55, 56, 57}
  {
    if '0' as int <= c && c <= '9' as int then 1 else 0
  }

  lemma Examples()
    ensures forall c :: '0' as int <= c <= '9' as int ==> Isdigit(c) == 1
    ensures forall c :: 'a' as int <= c <= 'j' as int ==> Isdigit(c) == 0
  {
  }
}
