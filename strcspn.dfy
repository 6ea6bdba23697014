/** `strcspn`: length of the longest prefix with no byte from `charset`.
    A null pointer for either argument gives 0. */
module Strcspn {
  import opened CStr
  import Strspn

  /** Reference definition of the rejected-free prefix length. */
  function CSpan(s: seq<int>, charset: seq<int>): (n: nat)
    requires IsCString(s) && IsCString(charset)
    ensures n <= Len(s)
    ensures forall i :: 0 <= i < n ==> s[i] !in Content(charset)
    ensures n < Len(s) ==> s[n] in Content(charset)
    decreases |s|
  {
    if s[0] == 0 || s[0] in Content(charset) then 0
    else CSpan(s[1..], charset) + 1
  }

  /** The loop mirrors `strspn` with the membership test negated, and uses the
      same charset scan (`strcspn.rs` carries its own identical copy). */
  method Strcspn(s: Option<seq<int>>, charset: Option<seq<int>>) returns (r: nat)
    requires s.Some? ==> IsCString(s.value)
    requires charset.Some? ==> IsCString(charset.value)
    ensures s.None? || charset.None? ==> r == 0
    ensures s.Some? && charset.Some? ==> r == CSpan(s.value, charset.value)
  {
    if s.None? {
      return 0;
    }
    if charset.None? {
      return 0;
    }
    var str, set_ := s.value, charset.value;
    var bytes := str[..Len(str)];
    var idx := 0;
    while idx < |bytes|
      invariant idx <= |bytes|
      invariant forall i :: 0 <= i < idx ==> str[i] !in Content(set_)
    {
      var inSet := Strspn.IsCInCharset(bytes[idx], set_);
      if inSet {
        CSpanUnique(str, set_, idx);
        return idx;
      }
      idx := idx + 1;
    }
    CSpanUnique(str, set_, |bytes|);
    return |bytes|;
  }

  lemma CSpanUnique(s: seq<int>, charset: seq<int>, n: nat)
    requires IsCString(s) && IsCString(charset) && n <= Len(s)
    requires forall i :: 0 <= i < n ==> s[i] !in Content(charset)
    requires n < Len(s) ==> s[n] in Content(charset)
    ensures CSpan(s, charset) == n
  {
  }

  /** An empty string gives 0 whatever the charset. */
  lemma EmptyStringIsZero(s: seq<int>, charset: seq<int>)
    requires IsCString(s) && IsCString(charset) && s[0] == 0
    ensures CSpan(s, charset) == 0
  {
  }

  /** With an empty charset the whole string is counted. */
  lemma EmptyCharsetIsLength(s: seq<int>)
    requires IsCString(s)
    ensures CSpan(s, [0]) == Len(s)
  {
    LenUnique([0], 0);
    CSpanUnique(s, [0], Len(s));
  }

  /** Once the first byte of s is in the charset, both spans meet at 0. */
  lemma {:induction false} SpanComplement(s: seq<int>, charset: seq<int>)
    requires IsCString(s) && IsCString(charset)
    ensures Strspn.Span(s, charset) == 0 || CSpan(s, charset) == 0
    ensures Len(s) > 0 ==> (Strspn.Span(s, charset) == 0 <==> CSpan(s, charset) > 0)
  {
  }

  /** The span over "0123456789" is the run of leading non-digits. */
  lemma NonDigitSpan(s: seq<int>, n: nat)
    requires IsCString(s) && n <= Len(s)
    requires forall i :: 0 <= i < n ==> !(48 <= s[i] <= 57)
    requires n < Len(s) ==> 48 <= s[n] <= 57
    ensures CSpan(s, Strspn.Digits()) == n
  {
    Strspn.DigitsMembers();
    CSpanUnique(s, Strspn.Digits(), n);
  }

  /** "abcdef": no byte is a digit. */
  lemma ExampleComplete(s: seq<int>)
    requires s == [97, 98, 99, 100, 101, 102, 0]
    ensures IsCString(s) && CSpan(s, Strspn.Digits()) == 6
  {
    LenUnique(s, 6);
    assert forall i :: 0 <= i < 6 ==> s[i] > 57;
    NonDigitSpan(s, 6);
  }

  /** "xyz1": the span stops at the digit. */
  lemma ExampleSubset(s: seq<int>)
    requires s == [120, 121, 122, 49, 0]
    ensures IsCString(s) && CSpan(s, Strspn.Digits()) == 3
  {
    LenUnique(s, 4);
    assert s[0] > 57 && s[1] > 57 && s[2] > 57 && s[3] == 49;
    NonDigitSpan(s, 3);
  }

  /** "567": the first byte is a digit. */
  lemma ExampleNone(s: seq<int>)
    requires s == [53, 54, 55, 0]
    ensures IsCString(s) && CSpan(s, Strspn.Digits()) == 0
  {
    LenUnique(s, 3);
    assert s[0] == 53;
    NonDigitSpan(s, 0);
  }

  /** "AABBCCDD" against the empty charset. */
  lemma ExampleEmptyCharset(s: seq<int>)
    requires s == Lit("AABBCCDD")
    ensures IsCString(s) && CSpan(s, [0]) == 8
  {
    LenUnique(s, 8);
    EmptyCharsetIsLength(s);
  }
}
