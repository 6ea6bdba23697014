/** `strcpy`: copy `src` up to and including its NUL into `dest`. The result
    pointer is always `dest` itself, so the model returns nothing. */
module Strcpy {
  import opened CStr

  /** The buffer after copying `src` (with its NUL) to offset `at`. */
  function CopyInto(buf: seq<int>, at: nat, src: seq<int>): (r: seq<int>)
    requires IsCString(src) && at + Len(src) < |buf|
    ensures |r| == |buf|
    ensures r[..at] == buf[..at] && r[at + Len(src) + 1..] == buf[at + Len(src) + 1..]
    ensures forall k :: 0 <= k <= Len(src) ==> r[at + k] == src[k]
  {
    buf[..at] + src[..Len(src) + 1] + buf[at + Len(src) + 1..]
  }

  /** `dest` is `dest[at..]` in the C sense: a pointer into the buffer. */
  method Strcpy(dest: array<int>, at: nat, src: seq<int>)
    requires IsCString(src) && at + Len(src) < dest.Length
    modifies dest
    ensures dest[..] == CopyInto(old(dest[..]), at, src)
  {
    ghost var orig := dest[..];
    var i := 0;
    while true
      invariant i <= Len(src)
      invariant forall k :: 0 <= k < dest.Length && !(at <= k < at + i) ==> dest[k] == orig[k]
      invariant forall k :: 0 <= k < i ==> dest[at + k] == src[k]
      decreases Len(src) - i
    {
      dest[at + i] := src[i];
      if src[i] == 0 {
        break;
      }
      i := i + 1;
    }
    assert i == Len(src);
    assert dest[..] == CopyInto(orig, at, src);
  }

  /** The copy, read back from `at`, is the string `src`. */
  lemma ReadsBack(buf: seq<int>, at: nat, src: seq<int>)
    requires IsCString(src) && at + Len(src) < |buf|
    ensures 0 in CopyInto(buf, at, src)[at..]
    ensures Content(CopyInto(buf, at, src)[at..]) == Content(src)
  {
    var r := CopyInto(buf, at, src)[at..];
    LenUnique(r, Len(src));
  }

  lemma ExampleShort()
    ensures CopyInto(Lit("abcdef")[..6], 0, Lit("hi")) == Lit("hi")[..3] + Lit("def")[..3]
  {
    LenUnique(Lit("hi"), 2);
  }

  lemma ExampleExact()
    ensures CopyInto([0, 0, 0], 0, Lit("hi")) == Lit("hi")
  {
    LenUnique(Lit("hi"), 2);
  }
}
