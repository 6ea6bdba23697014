/** `memchr`: the first of the n bytes at `s` equal to `c as u8`. */
module Memchr {
  import opened CStr

  /** `c as u8` for a `c_int`: the low eight bits, which is the Euclidean
      remainder by 256 for a two's-complement value. */
  function AsU8(c: int): (b: int)
    ensures 0 <= b < 256 && (c - b) % 256 == 0
  {
    c % 256
  }

  /** Index of the first match in s[..n], or None (the null pointer). */
  function Memchr(s: seq<int>, c: int, n: nat): (r: Option<nat>)
    requires n <= |s|
    ensures r.Some? ==> r.value < n && s[r.value] == AsU8(c)
    ensures r.Some? ==> forall i :: 0 <= i < r.value ==> s[i] != AsU8(c)
    ensures r.None? <==> forall i :: 0 <= i < n ==> s[i] != AsU8(c)
  {
    if n == 0 then None
    else if s[0] == AsU8(c) then Some(0)
    else
      match Memchr(s[1..], c, n - 1)
      case None => None
      case Some(k) => Some(k + 1)
  }

  /** Only the low eight bits of c take part. */
  lemma {:induction false} LowBitsOnly(s: seq<int>, c: int, n: nat)
    requires n <= |s|
    ensures Memchr(s, c, n) == Memchr(s, c + 256, n) == Memchr(s, c - 256, n)
  {
    assert AsU8(c) == AsU8(c + 256) == AsU8(c - 256);
  }

  /** Searching a C string for 0 over a range that covers its terminator finds
      the terminator. */
  lemma FindsTerminator(s: seq<int>, n: nat)
    requires IsCString(s) && Len(s) < n <= |s|
    ensures Memchr(s, 0, n) == Some(Len(s))
  {
    assert s[Len(s)] == AsU8(0);
  }

  /** A match depends only on the n bytes searched. */
  lemma {:induction false} OnlyPrefixMatters(s: seq<int>, t: seq<int>, c: int, n: nat)
    requires n <= |s| && n <= |t| && s[..n] == t[..n]
    ensures Memchr(s, c, n) == Memchr(t, c, n)
    decreases n
  {
    if n > 0 {
      assert s[0] == s[..n][0] && t[0] == t[..n][0];
      assert s[1..][..n - 1] == s[..n][1..] && t[1..][..n - 1] == t[..n][1..];
      OnlyPrefixMatters(s[1..], t[1..], c, n - 1);
    }
  }

  /** "hello world" with its terminator. */
  function HelloWorld(): (s: seq<int>)
    ensures IsCString(s) && |s| == 12
  {
    [104, 101, 108, 108, 111, 32, 119, 111, 114, 108, 100, 0]
  }

  lemma ExampleFindChar()
    ensures Memchr(HelloWorld(), 'w' as int, 12) == Some(6)
  {
    var s := HelloWorld();
    assert s[6] == AsU8('w' as int);
    assert forall i :: 0 <= i < 6 ==> s[i] != AsU8('w' as int);
  }

  lemma ExampleFindNull()
    ensures Memchr(HelloWorld(), 0, 12) == Some(11)
  {
    var s := HelloWorld();
    LenUnique(s, 11);
    FindsTerminator(s, 12);
  }

  lemma ExampleFindNothing()
    ensures Memchr(HelloWorld(), 'z' as int, 12) == None
  {
    var s := HelloWorld();
    assert forall i :: 0 <= i < 12 ==> s[i] != AsU8('z' as int);
  }
}
