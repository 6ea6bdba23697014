/** `strcat`: `strcpy` to the terminator of `dest`, found with `strlen`.
    The result pointer is always `dest`. */
module Strcat {
  import opened CStr
  import Strlen
  import Strcpy

  method Strcat(dest: array<int>, src: seq<int>)
    requires 0 in dest[..] && IsCString(src)
    requires Len(dest[..]) + Len(src) < dest.Length
    modifies dest
    ensures dest[..] == Strcpy.CopyInto(old(dest[..]), Len(old(dest[..])), src)
  {
    var n := Strlen.Strlen(dest[..]);
    Strcpy.Strcpy(dest, n, src);
  }

  /** The joined string is the old contents followed by those of `src`, and
      nothing past its terminator changes. */
  lemma Concatenates(buf: seq<int>, src: seq<int>)
    requires 0 in buf && IsCString(src) && Len(buf) + Len(src) < |buf|
    ensures var r := Strcpy.CopyInto(buf, Len(buf), src);
      0 in r && Content(r) == Content(buf) + Content(src)
  {
    var n, m := Len(buf), Len(src);
    var r := Strcpy.CopyInto(buf, n, src);
    forall k | 0 <= k < n + m
      ensures r[k] != 0 && r[k] == (Content(buf) + Content(src))[k]
    {
      if k < n {
        assert r[..n][k] == buf[..n][k];
      } else {
        assert r[n + (k - n)] == src[k - n];
      }
    }
    assert r[n + m] == src[m];
    LenUnique(r, n + m);
  }

  /** The six-byte buffer "hello" plus NUL is too small for " world": the
      joined string needs twelve bytes, so this call writes past its end. */
  lemma ExampleBufferTooSmall()
    ensures !(Len(Lit("hello")) + Len(Lit(" world")) < |Lit("hello")|)
  {
    LenUnique(Lit("hello"), 5);
    LenUnique(Lit(" world"), 6);
  }

  /** With a twelve-byte buffer the call is defined and yields "hello world". */
  lemma ExampleSimple()
    ensures Strcpy.CopyInto(Lit("hello") + [0, 0, 0, 0, 0, 0], 5, Lit(" world")) == Lit("hello world")
  {
    LenUnique(Lit(" world"), 6);
  }
}
