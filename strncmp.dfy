/** `strncmp`: like `strcmp` but over at most `n` positions. The bytes are
    read as `core::ffi::c_char` and widened to `c_int`, so the sign of the
    result depends on whether `c_char` is signed on the target. */
module Strncmp {
  import opened CStr
  import Strcmp

  /** `s` can be read at every index the scan may visit: either n bytes are
      there, or a terminator comes first. */
  predicate Readable(s: seq<int>, n: nat)
  {
    IsBytes(s) && (n <= |s| || 0 in s)
  }

  /** Reference definition of the bounded comparison. */
  function NCmp(s1: seq<int>, s2: seq<int>, n: nat, signedChar: bool): (r: int)
    requires Readable(s1, n) && Readable(s2, n)
    ensures n == 0 ==> r == 0
    decreases n
  {
    if n == 0 then 0
    else
      var v := Widen(s1[0], signedChar) - Widen(s2[0], signedChar);
      if v != 0 || s1[0] == 0 then v
      else NCmp(s1[1..], s2[1..], n - 1, signedChar)
  }

  /** The bytes of `s` among its first `n` positions, stopping at its NUL. */
  function Trunc(s: seq<int>, n: nat): (t: seq<int>)
    requires Readable(s, n)
    ensures |t| <= n && |t| <= |s| && 0 !in t
    ensures t == s[..|t|]
    decreases n
  {
    if n == 0 || s[0] == 0 then [] else [s[0]] + Trunc(s[1..], n - 1)
  }

  /** `usize` and `isize` on a 64-bit target: the count ranges below
      USIZE_LIMIT, the non-negative `isize` values below ISIZE_LIMIT. */
  const USIZE_LIMIT: nat := 0x1_0000_0000_0000_0000
  const ISIZE_LIMIT: nat := 0x8000_0000_0000_0000

  /** `n as isize`: the same 64 bits read in two's complement. */
  function AsIsize(n: nat): (i: int)
    requires n < USIZE_LIMIT
    ensures -(ISIZE_LIMIT as int) <= i < ISIZE_LIMIT
    ensures (n - i) % USIZE_LIMIT == 0
  {
    if n < ISIZE_LIMIT then n else n - USIZE_LIMIT
  }

  /** The number of positions `for i in 0..n as isize` visits: `n` itself
      below 2^63, none from there on, where the cast turns negative. */
  function Visited(n: nat): (k: nat)
    requires n < USIZE_LIMIT
    ensures n < ISIZE_LIMIT ==> k == n
    ensures n >= ISIZE_LIMIT ==> k == 0
  {
    var b := AsIsize(n);
    if b < 0 then 0 else b
  }

  /** The loop as written: it runs over `0..n as isize`, so it compares
      `Visited(n)` positions and not `n`. */
  method Strncmp(s1: seq<int>, s2: seq<int>, n: nat, signedChar: bool) returns (r: int)
    requires n < USIZE_LIMIT
    requires Readable(s1, Visited(n)) && Readable(s2, Visited(n))
    ensures r == NCmp(s1, s2, Visited(n), signedChar)
  {
    var bound := AsIsize(n);
    ghost var m := Visited(n);
    var i := 0;
    while i < bound
      invariant i <= m && i <= |s1| && i <= |s2|
      invariant Readable(s1[i..], m - i) && Readable(s2[i..], m - i)
      invariant NCmp(s1[i..], s2[i..], m - i, signedChar) == NCmp(s1, s2, m, signedChar)
    {
      var val := Widen(s1[i], signedChar) - Widen(s2[i], signedChar);
      if val != 0 || s1[i] == 0 {
        return val;
      }
      assert s1[i..][1..] == s1[i + 1..] && s2[i..][1..] == s2[i + 1..];
      i := i + 1;
    }
    return 0;
  }

  /** 0 exactly when the first n bytes agree, up to the first string's NUL. */
  lemma {:induction false} NCmpZeroIff(s1: seq<int>, s2: seq<int>, n: nat, signedChar: bool)
    requires Readable(s1, n) && Readable(s2, n)
    ensures NCmp(s1, s2, n, signedChar) == 0 <==> Trunc(s1, n) == Trunc(s2, n)
    decreases n
  {
    if n > 0 {
      var x, y := s1[0], s2[0];
      TruncStep(s1, n);
      TruncStep(s2, n);
      WidenInjective(x, y, signedChar);
      WidenInjective(x, 0, signedChar);
      WidenInjective(y, 0, signedChar);
      if x != 0 && y != 0 {
        ConsEq(x, Trunc(s1[1..], n - 1), y, Trunc(s2[1..], n - 1));
        if x == y {
          NCmpZeroIff(s1[1..], s2[1..], n - 1, signedChar);
        }
      }
    }
  }

  /** One step of `Trunc`: a NUL ends it, any other byte is kept. */
  lemma TruncStep(s: seq<int>, n: nat)
    requires Readable(s, n) && n > 0
    ensures s[0] == 0 ==> Trunc(s, n) == []
    ensures s[0] != 0 ==> Readable(s[1..], n - 1) && Trunc(s, n) == [s[0]] + Trunc(s[1..], n - 1)
  {
  }

  lemma ConsEq<T>(a: T, x: seq<T>, b: T, y: seq<T>)
    ensures [a] + x == [b] + y <==> a == b && x == y
  {
    if [a] + x == [b] + y {
      assert ([a] + x)[0] == a && ([b] + y)[0] == b;
      assert ([a] + x)[1..] == x && ([b] + y)[1..] == y;
    }
  }

  /** With unsigned bytes and a bound past the first string's end, the
      result is `strcmp`'s. */
  lemma {:induction false} NCmpExtendsCmp(s1: seq<int>, s2: seq<int>, n: nat)
    requires IsCString(s1) && IsCString(s2) && n > Len(s1)
    ensures NCmp(s1, s2, n, false) == Strcmp.Cmp(s1, s2)
    decreases n
  {
    if s1[0] == s2[0] && s1[0] != 0 {
      Strcmp.ContentCons(s1);
      NCmpExtendsCmp(s1[1..], s2[1..], n - 1);
    }
  }

  lemma Examples()
    ensures NCmp(Lit("123"), Lit("1234"), 3, false) == 0
    ensures NCmp(Lit("123"), Lit("x1234"), 3, false) < 0
    ensures NCmp(Lit("bbbbb"), Lit("aaaaa"), 3, false) > 0
    ensures NCmp(Lit("123"), Lit("x1234"), 3, true) < 0
    ensures NCmp(Lit("bbbbb"), Lit("aaaaa"), 3, true) > 0
  {
    var a, b := Lit("123"), Lit("1234");
    assert a[1..][1..] == Lit("3") && b[1..][1..] == Lit("34");
  }

  /** The code as written agrees with the bounded comparison below 2^63;
      from there on it reports equal strings whatever they hold. */
  lemma {:induction false} StrncmpZeroIff(s1: seq<int>, s2: seq<int>, n: nat, signedChar: bool)
    requires n < USIZE_LIMIT && Readable(s1, n) && Readable(s2, n)
    ensures n < ISIZE_LIMIT ==> NCmp(s1, s2, Visited(n), signedChar) == NCmp(s1, s2, n, signedChar)
    ensures NCmp(s1, s2, Visited(n), signedChar) == 0 <==> (n >= ISIZE_LIMIT || Trunc(s1, n) == Trunc(s2, n))
  {
    if n < ISIZE_LIMIT {
      NCmpZeroIff(s1, s2, n, signedChar);
    }
  }

  /** With unsigned bytes, a bound past the first string's end and below
      2^63, the code as written returns `strcmp`'s result. */
  lemma {:induction false} StrncmpExtendsCmp(s1: seq<int>, s2: seq<int>, n: nat)
    requires IsCString(s1) && IsCString(s2) && Len(s1) < n < ISIZE_LIMIT
    ensures NCmp(s1, s2, Visited(n), false) == Strcmp.Cmp(s1, s2)
  {
    NCmpExtendsCmp(s1, s2, n);
  }

  /** `strncmp("a", "b", SIZE_MAX)`: the cast makes the range empty and the
      code returns 0, where comparing at most `n` bytes gives -1. */
  lemma SizeMaxComparesNothing(a: seq<int>, b: seq<int>)
    requires a == Lit("a") && b == Lit("b")
    ensures NCmp(a, b, Visited(USIZE_LIMIT - 1), false) == 0
    ensures NCmp(a, b, USIZE_LIMIT - 1, false) == -1
  {
  }
}
