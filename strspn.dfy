/** `strspn`: length of the longest prefix made only of bytes from `charset`.
    A null pointer for either argument gives 0. */
module Strspn {
  import opened CStr

  /** Scans `charset` (up to its NUL) for c. */
  method IsCInCharset(c: int, charset: seq<int>) returns (found: bool)
    requires IsCString(charset)
    ensures found <==> c in Content(charset)
  {
    var bytes := charset[..Len(charset)];
    var k := 0;
    while k < |bytes|
      invariant k <= |bytes|
      invariant c !in bytes[..k]
    {
      if c == bytes[k] {
        return true;
      }
      assert bytes[..k + 1] == bytes[..k] + [bytes[k]];
      k := k + 1;
    }
    assert bytes[..k] == bytes;
    return false;
  }

  /** Reference definition of the accepted prefix length. */
  function Span(s: seq<int>, charset: seq<int>): (n: nat)
    requires IsCString(s) && IsCString(charset)
    ensures n <= Len(s)
    ensures forall i :: 0 <= i < n ==> s[i] in Content(charset)
    ensures n < Len(s) ==> s[n] !in Content(charset)
    decreases |s|
  {
    if s[0] == 0 || s[0] !in Content(charset) then 0
    else Span(s[1..], charset) + 1
  }

  method Strspn(s: Option<seq<int>>, charset: Option<seq<int>>) returns (r: nat)
    requires s.Some? ==> IsCString(s.value)
    requires charset.Some? ==> IsCString(charset.value)
    ensures s.None? || charset.None? ==> r == 0
    ensures s.Some? && charset.Some? ==> r == Span(s.value, charset.value)
  {
    if s.None? {
      return 0;
    }
    if charset.None? {
      return 0;
    }
    var str, set_ := s.value, charset.value;
    var bytes := str[..Len(str)];
    var idx := 0;
    while idx < |bytes|
      invariant idx <= |bytes|
      invariant forall i :: 0 <= i < idx ==> str[i] in Content(set_)
    {
      var inSet := IsCInCharset(bytes[idx], set_);
      if !inSet {
        SpanUnique(str, set_, idx);
        return idx;
      }
      idx := idx + 1;
    }
    SpanUnique(str, set_, |bytes|);
    return |bytes|;
  }

  /** Span is the only length meeting its contract. */
  lemma SpanUnique(s: seq<int>, charset: seq<int>, n: nat)
    requires IsCString(s) && IsCString(charset) && n <= Len(s)
    requires forall i :: 0 <= i < n ==> s[i] in Content(charset)
    requires n < Len(s) ==> s[n] !in Content(charset)
    ensures Span(s, charset) == n
  {
  }

  /** Every byte accepted gives the whole length; an empty set or string gives 0. */
  lemma SpanBounds(s: seq<int>, charset: seq<int>)
    requires IsCString(s) && IsCString(charset)
    ensures (forall i :: 0 <= i < Len(s) ==> s[i] in Content(charset)) ==> Span(s, charset) == Len(s)
    ensures Len(charset) == 0 || Len(s) == 0 ==> Span(s, charset) == 0
  {
  }

  /** "0123456789" */
  function Digits(): (d: seq<int>)
    ensures |d| == 11 && d[10] == 0
    ensures forall k :: 0 <= k < 10 ==> d[k] == 48 + k
  {
    seq(10, k => 48 + k) + [0]
  }

  /** "0123456789" is a string of ten bytes. */
  lemma DigitsString()
    ensures IsCString(Digits()) && Len(Digits()) == 10
  {
    var d := Digits();
    assert 0 in d by { assert d[10] == 0; }
    LenUnique(d, 10);
  }

  /** The members of "0123456789" are the decimal digits. */
  lemma DigitsMembers()
    ensures IsCString(Digits())
    ensures forall b :: b in Content(Digits()) <==> 48 <= b <= 57
  {
    DigitsString();
    var c := Content(Digits());
    forall b
      ensures b in c <==> 48 <= b <= 57
    {
      if 48 <= b <= 57 {
        assert c[b - 48] == b;
      }
    }
  }

  /** The span over "0123456789" is the run of leading decimal digits. */
  lemma DigitSpan(s: seq<int>, n: nat)
    requires IsCString(s) && n <= Len(s)
    requires forall i :: 0 <= i < n ==> 48 <= s[i] <= 57
    requires n < Len(s) ==> !(48 <= s[n] <= 57)
    ensures Span(s, Digits()) == n
  {
    DigitsMembers();
    SpanUnique(s, Digits(), n);
  }

  /** "987654321": every byte is a digit. */
  lemma ExampleComplete(s: seq<int>)
    requires s == [57, 56, 55, 54, 53, 52, 51, 50, 49, 0]
    ensures IsCString(s) && Span(s, Digits()) == 9
  {
    LenUnique(s, 9);
    assert forall i :: 0 <= i < 9 ==> 49 <= s[i] <= 57;
    DigitSpan(s, 9);
  }

  /** "98xx7654321": the span stops at the first non-digit. */
  lemma ExampleSubset(s: seq<int>)
    requires s == [57, 56, 120, 120, 55, 54, 53, 52, 51, 50, 49, 0]
    ensures IsCString(s) && Span(s, Digits()) == 2
  {
    LenUnique(s, 11);
    assert s[0] == 57 && s[1] == 56 && s[2] == 120;
    DigitSpan(s, 2);
  }
}
