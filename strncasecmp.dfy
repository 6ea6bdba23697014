/** `strncasecmp`: `strncmp` on ASCII-lowercased bytes, read as `u8`. */
module Strncasecmp {
  import opened CStr
  import opened Strncmp

  /** Reference definition of the case-blind bounded comparison. */
  function NCaseCmp(s1: seq<int>, s2: seq<int>, n: nat): (r: int)
    requires Readable(s1, n) && Readable(s2, n)
    ensures n == 0 ==> r == 0
    decreases n
  {
    if n == 0 then 0
    else
      var v := ToLower(s1[0]) - ToLower(s2[0]);
      if v != 0 || s1[0] == 0 then v
      else NCaseCmp(s1[1..], s2[1..], n - 1)
  }

  method Strncasecmp(s1: seq<int>, s2: seq<int>, n: nat) returns (r: int)
    requires Readable(s1, n) && Readable(s2, n)
    ensures r == NCaseCmp(s1, s2, n)
  {
    var i := 0;
    while i < n
      invariant i <= n && i <= |s1| && i <= |s2|
      invariant Readable(s1[i..], n - i) && Readable(s2[i..], n - i)
      invariant NCaseCmp(s1[i..], s2[i..], n - i) == NCaseCmp(s1, s2, n)
    {
      var c1 := s1[i];
      var c2 := s2[i];
      var val := ToLower(c1) - ToLower(c2);
      if val != 0 || c1 == 0 {
        return val;
      }
      assert s1[i..][1..] == s1[i + 1..] && s2[i..][1..] == s2[i + 1..];
      i := i + 1;
    }
    return 0;
  }

  /** Two byte strings that differ only in the case of ASCII letters. */
  predicate SameUpToCase(s: seq<int>, t: seq<int>)
  {
    |s| == |t| && forall i :: 0 <= i < |s| ==> ToLower(s[i]) == ToLower(t[i])
  }

  function Lowered(s: seq<int>): (t: seq<int>)
    ensures |t| == |s| && forall i :: 0 <= i < |s| ==> t[i] == ToLower(s[i])
  {
    seq(|s|, i requires 0 <= i < |s| => ToLower(s[i]))
  }

  /** Flipping the case of letters in either string never changes the result. */
  lemma {:induction false} CaseBlind(s1: seq<int>, s2: seq<int>, t1: seq<int>, t2: seq<int>, n: nat)
    requires Readable(s1, n) && Readable(s2, n) && Readable(t1, n) && Readable(t2, n)
    requires SameUpToCase(s1, t1) && SameUpToCase(s2, t2)
    ensures NCaseCmp(s1, s2, n) == NCaseCmp(t1, t2, n)
    decreases n
  {
    if n > 0 {
      assert ToLower(s1[0]) == ToLower(t1[0]) && ToLower(s2[0]) == ToLower(t2[0]);
      assert s1[0] == 0 <==> t1[0] == 0;
      if ToLower(s1[0]) == ToLower(s2[0]) && s1[0] != 0 {
        CaseBlind(s1[1..], s2[1..], t1[1..], t2[1..], n - 1);
      }
    }
  }

  lemma LoweredCons(x: int, a: seq<int>)
    ensures Lowered([x] + a) == [ToLower(x)] + Lowered(a)
  {
  }

  /** 0 exactly when the truncated strings agree after lowercasing. */
  lemma {:induction false} NCaseCmpZeroIff(s1: seq<int>, s2: seq<int>, n: nat)
    requires Readable(s1, n) && Readable(s2, n)
    ensures NCaseCmp(s1, s2, n) == 0 <==> Lowered(Trunc(s1, n)) == Lowered(Trunc(s2, n))
    decreases n
  {
    if n > 0 {
      var x, y := s1[0], s2[0];
      LoweredStep(s1, n);
      LoweredStep(s2, n);
      if x != 0 && y != 0 {
        ConsEq(ToLower(x), Lowered(Trunc(s1[1..], n - 1)), ToLower(y), Lowered(Trunc(s2[1..], n - 1)));
        if ToLower(x) == ToLower(y) {
          NCaseCmpZeroIff(s1[1..], s2[1..], n - 1);
        }
      }
    }
  }

  /** One step of the lowered truncation; only NUL lowers to 0. */
  lemma LoweredStep(s: seq<int>, n: nat)
    requires Readable(s, n) && n > 0
    ensures s[0] == 0 ==> Lowered(Trunc(s, n)) == [] && ToLower(s[0]) == 0
    ensures s[0] != 0 ==> Readable(s[1..], n - 1) && ToLower(s[0]) != 0
    ensures s[0] != 0 ==> Lowered(Trunc(s, n)) == [ToLower(s[0])] + Lowered(Trunc(s[1..], n - 1))
  {
    TruncStep(s, n);
    if s[0] != 0 {
      LoweredCons(s[0], Trunc(s[1..], n - 1));
    }
  }

  lemma Examples()
    ensures NCaseCmp(Lit("abc"), Lit("AbCDEF"), 3) == 0
    ensures NCaseCmp(Lit("123"), Lit("x1234"), 3) < 0
    ensures NCaseCmp(Lit("bbbbb"), Lit("aaaaa"), 3) > 0
  {
    var a, b := Lit("abc"), Lit("AbCDEF");
    assert a[1..][1..] == Lit("c") && b[1..][1..] == Lit("CDEF");
  }
}
