/** Shared vocabulary for the C-string routines: bytes, NUL-terminated
    strings, the optional pointer result and the two readings of `c_char`. */
module CStr {

  /** A result pointer: `None` is the null pointer, `Some(i)` points at index i. */
  datatype Option<T> = None | Some(value: T)

  /** `CChar` is `u8`: every stored byte lies in 0..255. */
  predicate IsByte(b: int) { 0 <= b < 256 }

  predicate IsBytes(s: seq<int>) { forall i :: 0 <= i < |s| ==> IsByte(s[i]) }

  /** A readable NUL-terminated string: bytes only, with a terminator somewhere. */
  predicate IsCString(s: seq<int>) { IsBytes(s) && 0 in s }

  /** Index of the first NUL, i.e. the string's length. */
  function Len(s: seq<int>): (n: nat)
    requires 0 in s
    ensures n < |s| && s[n] == 0
    ensures forall i :: 0 <= i < n ==> s[i] != 0
  {
    if s[0] == 0 then 0 else Len(s[1..]) + 1
  }

  /** The bytes before the terminator. */
  function Content(s: seq<int>): (c: seq<int>)
    requires 0 in s
    ensures |c| == Len(s) && 0 !in c
  {
    s[..Len(s)]
  }

  lemma LenUnique(s: seq<int>, n: nat)
    requires n < |s| && s[n] == 0
    requires forall i :: 0 <= i < n ==> s[i] != 0
    ensures 0 in s && Len(s) == n
  {
    assert s[n] in s;
  }

  /** A buffer that starts with a C string holds that same C string. */
  lemma PrefixString(s: seq<int>, w: seq<int>)
    requires 0 in w && |w| <= |s| && s[..|w|] == w
    ensures 0 in s && Len(s) == Len(w) && Content(s) == Content(w)
  {
    assert s[Len(w)] == w[Len(w)];
    assert forall i :: 0 <= i < Len(w) ==> s[i] == w[i];
    LenUnique(s, Len(w));
  }

  /** The NUL-terminated byte string spelled by an ASCII literal. */
  function Lit(t: string): (s: seq<int>)
    ensures |s| == |t| + 1 && s[|t|] == 0
    ensures forall i :: 0 <= i < |t| ==> s[i] == t[i] as int
  {
    seq(|t|, i requires 0 <= i < |t| => t[i] as int) + [0]
  }

  /** `c_char` widened to `c_int`: on targets where `c_char` is signed,
      bytes 128..255 become negative. */
  function Widen(b: int, signedChar: bool): (w: int)
    requires IsByte(b)
    ensures w == b || (signedChar && w == b - 256)
    ensures w == 0 <==> b == 0
    ensures signedChar ==> -128 <= w < 128
    ensures !signedChar ==> w == b
  {
    if signedChar && b >= 128 then b - 256 else b
  }

  lemma WidenInjective(a: int, b: int, signedChar: bool)
    requires IsByte(a) && IsByte(b)
    ensures Widen(a, signedChar) == Widen(b, signedChar) <==> a == b
  {
  }

  /** `u8::to_ascii_lowercase`. */
  function ToLower(b: int): (l: int)
    ensures 'A' as int <= b <= 'Z' as int ==> l == b + 32
    ensures !('A' as int <= b <= 'Z' as int) ==> l == b
  {
    if 'A' as int <= b <= 'Z' as int then b + 32 else b
  }
}
