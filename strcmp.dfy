/** `strcmp`: difference of the first differing bytes, or 0 at the end of
    the first string. Bytes are `CChar` = `u8`, so they compare unsigned. */
module Strcmp {
  import opened CStr

  /** Reference definition: walk both strings in step. */
  function Cmp(s1: seq<int>, s2: seq<int>): (r: int)
    requires IsCString(s1) && IsCString(s2)
    ensures -255 <= r <= 255
    decreases |s1|
  {
    if s1[0] != s2[0] || s1[0] == 0 then s1[0] - s2[0]
    else Cmp(s1[1..], s2[1..])
  }

  /** Lexicographic order of byte strings (a proper prefix comes first). */
  predicate LexLess(a: seq<int>, b: seq<int>)
    decreases |a|
  {
    if a == [] then b != []
    else if b == [] then false
    else a[0] < b[0] || (a[0] == b[0] && LexLess(a[1..], b[1..]))
  }

  lemma ContentCons(s: seq<int>)
    requires 0 in s && s[0] != 0
    ensures 0 in s[1..] && Content(s) == [s[0]] + Content(s[1..])
  {
    LenUnique(s[1..], Len(s) - 1);
  }

  method Strcmp(s1: seq<int>, s2: seq<int>) returns (r: int)
    requires IsCString(s1) && IsCString(s2)
    ensures r == Cmp(s1, s2)
  {
    var i := 0;
    while true
      invariant i <= Len(s1) && i <= Len(s2)
      invariant IsCString(s1[i..]) && IsCString(s2[i..])
      invariant Cmp(s1[i..], s2[i..]) == Cmp(s1, s2)
      decreases Len(s1) - i
    {
      var v := s1[i] - s2[i];
      if v != 0 || s1[i] == 0 {
        return v;
      }
      assert s1[i..][1..] == s1[i + 1..] && s2[i..][1..] == s2[i + 1..];
      i := i + 1;
    }
  }

  /** 0 exactly when both strings hold the same bytes before their NULs. */
  lemma {:induction false} CmpZeroIff(s1: seq<int>, s2: seq<int>)
    requires IsCString(s1) && IsCString(s2)
    ensures Cmp(s1, s2) == 0 <==> Content(s1) == Content(s2)
    decreases |s1|
  {
    if s1[0] != s2[0] || s1[0] == 0 {
      if s1[0] != 0 { ContentCons(s1); }
      if s2[0] != 0 { ContentCons(s2); }
      if s1[0] == 0 && s2[0] == 0 {
        LenUnique(s1, 0);
        LenUnique(s2, 0);
      }
    } else {
      ContentCons(s1);
      ContentCons(s2);
      CmpZeroIff(s1[1..], s2[1..]);
    }
  }

  lemma CmpSelf(s: seq<int>)
    requires IsCString(s)
    ensures Cmp(s, s) == 0
  {
    CmpZeroIff(s, s);
  }

  lemma {:induction false} CmpAntisymmetric(s1: seq<int>, s2: seq<int>)
    requires IsCString(s1) && IsCString(s2)
    ensures Cmp(s1, s2) == -Cmp(s2, s1)
    decreases |s1|
  {
    if s1[0] == s2[0] && s1[0] != 0 {
      CmpAntisymmetric(s1[1..], s2[1..]);
    }
  }

  /** The sign is unsigned-byte lexicographic order on the contents. */
  lemma {:induction false} CmpIsLexicographic(s1: seq<int>, s2: seq<int>)
    requires IsCString(s1) && IsCString(s2)
    ensures Cmp(s1, s2) < 0 <==> LexLess(Content(s1), Content(s2))
    decreases |s1|
  {
    if s1[0] != 0 { ContentCons(s1); } else { LenUnique(s1, 0); }
    if s2[0] != 0 { ContentCons(s2); } else { LenUnique(s2, 0); }
    if s1[0] == s2[0] && s1[0] != 0 {
      CmpIsLexicographic(s1[1..], s2[1..]);
    }
  }
}
