/** `strchr`: first position, terminator included, whose byte widened to
    `c_int` equals the needle. */
module Strchr {
  import opened CStr

  /** Reference definition: the first match at or after index i. */
  function FirstFrom(h: seq<int>, needle: int, signedChar: bool, i: nat): (r: Option<nat>)
    requires IsCString(h) && i <= Len(h)
    ensures r.Some? ==> i <= r.value <= Len(h) && Widen(h[r.value], signedChar) == needle
    ensures r.Some? ==> forall j :: i <= j < r.value ==> Widen(h[j], signedChar) != needle
    ensures r.None? <==> forall j :: i <= j <= Len(h) ==> Widen(h[j], signedChar) != needle
    decreases Len(h) - i
  {
    if Widen(h[i], signedChar) == needle then Some(i)
    else if h[i] == 0 then None
    else FirstFrom(h, needle, signedChar, i + 1)
  }

  function FirstMatch(h: seq<int>, needle: int, signedChar: bool): (r: Option<nat>)
    requires IsCString(h)
  {
    FirstFrom(h, needle, signedChar, 0)
  }

  method Strchr(haystack: seq<int>, needle: int, signedChar: bool) returns (r: Option<nat>)
    requires IsCString(haystack)
    ensures r == FirstMatch(haystack, needle, signedChar)
  {
    var idx := 0;
    while true
      invariant idx <= Len(haystack)
      invariant FirstFrom(haystack, needle, signedChar, idx) == FirstMatch(haystack, needle, signedChar)
      decreases Len(haystack) - idx
    {
      if needle == Widen(haystack[idx], signedChar) {
        return Some(idx);
      }
      if haystack[idx] == 0 {
        break;
      }
      idx := idx + 1;
    }
    return None;
  }

  /** Searching for 0 finds the terminator, i.e. the string's length. */
  lemma FindsTerminator(h: seq<int>, signedChar: bool)
    requires IsCString(h)
    ensures FirstMatch(h, 0, signedChar) == Some(Len(h))
  {
    assert Widen(h[Len(h)], signedChar) == 0;
  }

  /** The first matching position is the only position that matches with
      no match before it. */
  lemma FirstMatchAt(h: seq<int>, needle: int, signedChar: bool, k: nat)
    requires IsCString(h) && k <= Len(h) && Widen(h[k], signedChar) == needle
    requires forall j :: 0 <= j < k ==> Widen(h[j], signedChar) != needle
    ensures FirstMatch(h, needle, signedChar) == Some(k)
  {
    var r := FirstMatch(h, needle, signedChar);
    assert r.Some?;
    assert !(r.value < k);
  }

  /** A needle outside the widened byte range never matches. */
  lemma OutOfRangeNeverMatches(h: seq<int>, needle: int, signedChar: bool)
    requires IsCString(h)
    requires if signedChar then needle < -128 || needle > 127 else needle < 0 || needle > 255
    ensures FirstMatch(h, needle, signedChar) == None
  {
  }

  /** "hayyystack" as bytes. */
  function Hay(): (h: seq<int>)
    ensures IsCString(h)
  {
    [104, 97, 121, 121, 121, 115, 116, 97, 99, 107, 0]
  }

  lemma HayLen()
    ensures Len(Hay()) == 10
  {
    LenUnique(Hay(), 10);
  }

  lemma ExampleNoMatch()
    ensures FirstMatch(Hay(), 'X' as int, false) == None
  {
    HayLen();
    var h := Hay();
    assert forall j :: 0 <= j <= 10 ==> h[j] != 'X' as int;
  }

  lemma ExampleTerminator()
    ensures FirstMatch(Hay(), 0, false) == Some(10)
  {
    HayLen();
    FindsTerminator(Hay(), false);
  }

  lemma ExampleStart()
    ensures FirstMatch(Hay(), 'h' as int, false) == Some(0)
  {
    HayLen();
    FirstMatchAt(Hay(), 'h' as int, false, 0);
  }

  lemma ExampleMiddle()
    ensures FirstMatch(Hay(), 'y' as int, false) == Some(2)
  {
    var h := Hay();
    HayLen();
    assert h[0] == 104 && h[1] == 97 && h[2] == 121;
    FirstMatchAt(h, 'y' as int, false, 2);
  }

  lemma ExampleEnd()
    ensures FirstMatch(Hay(), 'k' as int, false) == Some(9)
  {
    var h := Hay();
    HayLen();
    assert forall j :: 0 <= j < 9 ==> h[j] != 107;
    FirstMatchAt(h, 'k' as int, false, 9);
  }
}
