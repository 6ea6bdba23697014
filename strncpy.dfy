/** `strncpy`: copy at most `count` bytes of `src`, stopping after its NUL,
    and zero-fill the rest of the `count` bytes. No NUL is added when `src`
    has `count` or more bytes. The result pointer is always `dest`. */
module Strncpy {
  import opened CStr
  import opened Strncmp

  function Zeros(k: nat): (z: seq<int>)
    ensures |z| == k && forall i :: 0 <= i < k ==> z[i] == 0
  {
    seq(k, _ => 0)
  }

  /** The `count` bytes written to `dest`. */
  function NCopied(src: seq<int>, count: nat): (r: seq<int>)
    requires Readable(src, count)
  {
    var t := Trunc(src, count);
    t + Zeros(count - |t|)
  }

  method Strncpy(dest: array<int>, src: seq<int>, count: nat)
    requires Readable(src, count) && count <= dest.Length
    modifies dest
    ensures dest[..] == NCopied(src, count) + old(dest[count..])
  {
    ghost var orig := dest[..];
    ghost var t := Trunc(src, count);
    TruncIsPrefix(src, count);
    var i := 0;
    while i < count
      invariant i <= |t| && i <= count
      invariant dest[..i] == t[..i] && dest[i..] == orig[i..]
    {
      var c := src[i];
      dest[i] := c;
      i := i + 1;
      if c == 0 {
        assert i - 1 == |t|;
        break;
      }
    }
    assert dest[..|t|] == t && |t| <= i;
    assert forall k :: |t| <= k < i ==> dest[k] == 0;
    for j := i to count
      invariant dest[..|t|] == t && dest[j..] == orig[j..]
      invariant forall k :: |t| <= k < j ==> dest[k] == 0
    {
      dest[j] := 0;
    }
    Filled(dest[..], t, count, orig);
  }

  /** A buffer holding t, then zeros up to `count`, then the old bytes. */
  lemma Filled(d: seq<int>, t: seq<int>, count: nat, orig: seq<int>)
    requires |d| == |orig| && |t| <= count <= |d|
    requires d[..|t|] == t && d[count..] == orig[count..]
    requires forall k :: |t| <= k < count ==> d[k] == 0
    ensures d == t + Zeros(count - |t|) + orig[count..]
  {
    var r := t + Zeros(count - |t|) + orig[count..];
    forall k | 0 <= k < |d|
      ensures d[k] == r[k]
    {
      if k < |t| {
        assert d[..|t|][k] == d[k];
      } else if k >= count {
        assert d[count..][k - count] == d[k];
      }
    }
  }

  /** `Trunc` is the run of non-NUL bytes: it stops at a NUL or at `count`. */
  lemma {:induction false} TruncIsPrefix(src: seq<int>, count: nat)
    requires Readable(src, count)
    ensures var t := Trunc(src, count); |t| == count || (|t| < |src| && src[|t|] == 0)
    decreases count
  {
    if count > 0 && src[0] != 0 {
      TruncIsPrefix(src[1..], count - 1);
    }
  }

  /** Exactly `count` bytes are written. With a short source the copy is a C
      string that reads back as `src`; otherwise it holds no NUL at all. */
  lemma CopiedShape(src: seq<int>, count: nat)
    requires Readable(src, count)
    ensures |NCopied(src, count)| == count
    ensures 0 in src && Len(src) < count ==>
      0 in NCopied(src, count) && Content(NCopied(src, count)) == Content(src)
    ensures (forall i :: 0 <= i < count && i < |src| ==> src[i] != 0) ==>
      NCopied(src, count) == src[..count]
  {
    var t := Trunc(src, count);
    TruncIsPrefix(src, count);
    var r := NCopied(src, count);
    if 0 in src && Len(src) < count {
      assert |t| == Len(src);
      LenUnique(r, |t|);
      assert Content(r) == t;
    }
    if forall i :: 0 <= i < count && i < |src| ==> src[i] != 0 {
      assert |t| == count;
    }
  }

  /** The unit test `short`: "hi" copied with count 5 over the six bytes
      "abcdef" leaves "hi\0\0\0f"; the sixth byte is not touched. */
  lemma ExampleShort()
    ensures NCopied(Lit("hi"), 5) == [104, 105, 0, 0, 0]
    ensures NCopied(Lit("hi"), 5) + [97, 98, 99, 100, 101, 102][5..] == [104, 105, 0, 0, 0, 102]
  {
  }

  /** The same test run through `Strncpy` on a fresh six-byte buffer. */
  method ExampleShortBuffer() returns (d: seq<int>)
    ensures d == [104, 105, 0, 0, 0, 102]
  {
    var dest := new int[6];
    dest[0], dest[1], dest[2], dest[3], dest[4], dest[5] := 97, 98, 99, 100, 101, 102;
    assert dest[..] == [97, 98, 99, 100, 101, 102];
    Strncpy(dest, Lit("hi"), 5);
    ExampleShort();
    d := dest[..];
  }

  lemma ExampleTruncated()
    ensures NCopied(Lit("hello"), 2) == [104, 101]
  {
  }
}
