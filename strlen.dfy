/** `strlen`: count bytes up to the first NUL. */
module Strlen {
  import opened CStr

  method Strlen(s: seq<int>) returns (n: nat)
    requires 0 in s
    ensures n < |s| && s[n] == 0
    ensures forall i :: 0 <= i < n ==> s[i] != 0
    ensures n == Len(s)
  {
    n := 0;
    while s[n] != 0
      invariant n <= Len(s)
      invariant forall i :: 0 <= i < n ==> s[i] != 0
      decreases Len(s) - n
    {
      n := n + 1;
    }
  }

  lemma Examples()
    ensures Len(Lit("Hello")) == 5
    ensures Len(Lit("")) == 0
    ensures Len(Lit("X")) == 1
  {
    LenUnique(Lit("Hello"), 5);
    LenUnique(Lit(""), 0);
    LenUnique(Lit("X"), 1);
  }
}
