/** `strrchr`: last position, terminator included, whose byte widened to
    `c_int` equals the needle. */
module Strrchr {
  import opened CStr
  import Strchr

  /** Reference definition, searching backwards: the last match below index k. */
  function LastBelow(h: seq<int>, needle: int, signedChar: bool, k: nat): (r: Option<nat>)
    requires IsCString(h) && k <= Len(h) + 1
    ensures r.Some? ==> r.value < k && Widen(h[r.value], signedChar) == needle
    ensures r.Some? ==> forall j :: r.value < j < k ==> Widen(h[j], signedChar) != needle
    ensures r.None? <==> forall j :: 0 <= j < k ==> Widen(h[j], signedChar) != needle
  {
    if k == 0 then None
    else if Widen(h[k - 1], signedChar) == needle then Some(k - 1)
    else LastBelow(h, needle, signedChar, k - 1)
  }

  function LastMatch(h: seq<int>, needle: int, signedChar: bool): (r: Option<nat>)
    requires IsCString(h)
  {
    LastBelow(h, needle, signedChar, Len(h) + 1)
  }

  /** The forward scan of the source, remembering the latest match. */
  method Strrchr(haystack: seq<int>, needle: int, signedChar: bool) returns (r: Option<nat>)
    requires IsCString(haystack)
    ensures r == LastMatch(haystack, needle, signedChar)
  {
    var last := None;
    var idx := 0;
    while true
      invariant idx <= Len(haystack)
      invariant last == LastBelow(haystack, needle, signedChar, idx)
      decreases Len(haystack) - idx
    {
      if needle == Widen(haystack[idx], signedChar) {
        last := Some(idx);
      }
      if haystack[idx] == 0 {
        break;
      }
      idx := idx + 1;
    }
    return last;
  }

  /** Searching for 0 finds the terminator, i.e. the string's length. */
  lemma FindsTerminator(h: seq<int>, signedChar: bool)
    requires IsCString(h)
    ensures LastMatch(h, 0, signedChar) == Some(Len(h))
  {
    assert Widen(h[Len(h)], signedChar) == 0;
  }

  /** Both ends agree on whether there is a match, and `strchr` never lies
      after `strrchr`. */
  lemma {:induction false} FirstNotAfterLast(h: seq<int>, needle: int, signedChar: bool)
    requires IsCString(h)
    ensures Strchr.FirstMatch(h, needle, signedChar).None? <==> LastMatch(h, needle, signedChar).None?
    ensures LastMatch(h, needle, signedChar).Some? ==>
      Strchr.FirstMatch(h, needle, signedChar).value <= LastMatch(h, needle, signedChar).value
  {
    var f, l := Strchr.FirstMatch(h, needle, signedChar), LastMatch(h, needle, signedChar);
    if l.Some? {
      assert f.Some?;
    }
  }

  function HayHay(): (h: seq<int>)
    ensures IsCString(h)
  {
    [104, 97, 121, 104, 97, 121, 0]
  }

  lemma ExampleStart()
    ensures LastMatch(HayHay(), 'h' as int, false) == Some(3)
  {
    LenUnique(HayHay(), 6);
  }

  lemma ExampleNoMatch()
    ensures LastMatch(Strchr.Hay(), 'X' as int, false) == None
  {
    Strchr.HayLen();
    var h := Strchr.Hay();
    assert forall j :: 0 <= j <= 10 ==> h[j] != 'X' as int;
  }

  lemma ExampleTerminator()
    ensures LastMatch(Strchr.Hay(), 0, false) == Some(10)
  {
    Strchr.HayLen();
    FindsTerminator(Strchr.Hay(), false);
  }

  lemma ExampleMiddle()
    ensures LastMatch(Strchr.Hay(), 'y' as int, false) == Some(4)
  {
    Strchr.HayLen();
  }

  lemma ExampleEnd()
    ensures LastMatch(Strchr.Hay(), 'k' as int, false) == Some(9)
  {
    Strchr.HayLen();
  }
}
