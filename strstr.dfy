/** `strstr`: first position of the haystack where the needle's bytes
    (without its NUL) occur, entirely before the haystack's NUL. */
module Strstr {
  import opened CStr

  /** The needle's content occurs at index i, before the haystack's terminator. */
  ghost predicate OccursAt(h: seq<int>, nd: seq<int>, i: nat)
    requires 0 in h && 0 in nd
  {
    i + Len(nd) <= Len(h) && forall k :: 0 <= k < Len(nd) ==> h[i + k] == nd[k]
  }

  /** Reference definition: the first occurrence at or after index i. */
  ghost function FirstFrom(h: seq<int>, nd: seq<int>, i: nat): (r: Option<nat>)
    requires IsCString(h) && IsCString(nd) && i <= Len(h)
    ensures r.Some? ==> i <= r.value < Len(h) && OccursAt(h, nd, r.value)
    ensures r.Some? ==> forall j :: i <= j < r.value ==> !OccursAt(h, nd, j)
    ensures r.None? ==> forall j :: i <= j < Len(h) ==> !OccursAt(h, nd, j)
    decreases Len(h) - i
  {
    if i == Len(h) then None
    else if OccursAt(h, nd, i) then Some(i)
    else FirstFrom(h, nd, i + 1)
  }

  /** An empty needle is found at the start, even in an empty haystack. */
  ghost function Occurrence(h: seq<int>, nd: seq<int>): (r: Option<nat>)
    requires IsCString(h) && IsCString(nd)
  {
    if Len(nd) == 0 then Some(0) else FirstFrom(h, nd, 0)
  }

  method Strstr(haystack: seq<int>, needle: seq<int>) returns (r: Option<nat>)
    requires IsCString(haystack) && IsCString(needle)
    ensures r == Occurrence(haystack, needle)
  {
    if needle[0] == 0 {
      return Some(0);
    }
    var i := 0;
    while true
      invariant i <= Len(haystack)
      invariant FirstFrom(haystack, needle, i) == Occurrence(haystack, needle)
      decreases Len(haystack) - i
    {
      if haystack[i] == 0 {
        break;
      }
      var len := 0;
      while true
        invariant len <= Len(needle) && i + len <= Len(haystack)
        invariant forall k :: 0 <= k < len ==> haystack[i + k] == needle[k]
        decreases Len(needle) - len
      {
        var nec := needle[len];
        var hsc := haystack[i + len];
        if nec == 0 {
          break;
        }
        if hsc != nec {
          break;
        }
        len := len + 1;
      }
      if needle[len] == 0 {
        return Some(i);
      }
      i := i + 1;
    }
    return None;
  }

  /** Whenever the needle is found, its content sits before the haystack's NUL. */
  lemma MatchBeforeTerminator(h: seq<int>, nd: seq<int>)
    requires IsCString(h) && IsCString(nd)
    requires Occurrence(h, nd).Some?
    ensures Occurrence(h, nd).value + Len(nd) <= Len(h)
    ensures var i := Occurrence(h, nd).value; forall k :: i <= k < i + Len(nd) ==> h[k] != 0
  {
  }

  /** The first occurrence of a non-empty needle, as its contract pins it. */
  lemma FoundAt(h: seq<int>, nd: seq<int>, k: nat)
    requires IsCString(h) && IsCString(nd) && Len(nd) > 0
    requires OccursAt(h, nd, k) && forall j :: 0 <= j < k ==> !OccursAt(h, nd, j)
    ensures Occurrence(h, nd) == Some(k)
  {
    var r := FirstFrom(h, nd, 0);
    assert r.Some?;
    assert !(r.value < k);
  }

  /** A non-empty needle occurring nowhere before the terminator. */
  lemma NotFound(h: seq<int>, nd: seq<int>)
    requires IsCString(h) && IsCString(nd) && Len(nd) > 0
    requires forall j :: 0 <= j < Len(h) ==> !OccursAt(h, nd, j)
    ensures Occurrence(h, nd) == None
  {
  }

  /** "haystack" and "hay". */
  lemma ExampleStart(h: seq<int>, nd: seq<int>)
    requires h == [104, 97, 121, 115, 116, 97, 99, 107, 0] && nd == [104, 97, 121, 0]
    ensures IsCString(h) && IsCString(nd) && Occurrence(h, nd) == Some(0)
  {
    LenUnique(h, 8);
    LenUnique(nd, 3);
    assert OccursAt(h, nd, 0);
    FoundAt(h, nd, 0);
  }

  /** "haystack" and "yst". */
  lemma ExampleMiddle(h: seq<int>, nd: seq<int>)
    requires h == [104, 97, 121, 115, 116, 97, 99, 107, 0] && nd == [121, 115, 116, 0]
    ensures IsCString(h) && IsCString(nd) && Occurrence(h, nd) == Some(2)
  {
    LenUnique(h, 8);
    LenUnique(nd, 3);
    assert !OccursAt(h, nd, 0) by { assert h[0] != nd[0]; }
    assert !OccursAt(h, nd, 1) by { assert h[1] != nd[0]; }
    assert OccursAt(h, nd, 2);
    FoundAt(h, nd, 2);
  }

  /** "haystack" and "stack". */
  lemma ExampleEnd(h: seq<int>, nd: seq<int>)
    requires h == [104, 97, 121, 115, 116, 97, 99, 107, 0] && nd == [115, 116, 97, 99, 107, 0]
    ensures IsCString(h) && IsCString(nd) && Occurrence(h, nd) == Some(3)
  {
    LenUnique(h, 8);
    LenUnique(nd, 5);
    assert !OccursAt(h, nd, 0) by { assert h[0] != nd[0]; }
    assert !OccursAt(h, nd, 1) by { assert h[1] != nd[0]; }
    assert !OccursAt(h, nd, 2) by { assert h[2] != nd[0]; }
    assert OccursAt(h, nd, 3);
    FoundAt(h, nd, 3);
  }

  /** "haystack" and "needle". */
  lemma ExampleNoMatch(h: seq<int>, nd: seq<int>)
    requires h == [104, 97, 121, 115, 116, 97, 99, 107, 0] && nd == [110, 101, 101, 100, 108, 101, 0]
    ensures IsCString(h) && IsCString(nd) && Occurrence(h, nd) == None
  {
    LenUnique(h, 8);
    LenUnique(nd, 6);
    forall j | 0 <= j < 8
      ensures !OccursAt(h, nd, j)
    {
      if j <= 2 {
        assert h[j] != nd[0];
      }
    }
    NotFound(h, nd);
  }

  /** "haystack" and the longer "haystacka". */
  lemma ExamplePartial(h: seq<int>, nd: seq<int>)
    requires h == [104, 97, 121, 115, 116, 97, 99, 107, 0]
    requires nd == [104, 97, 121, 115, 116, 97, 99, 107, 97, 0]
    ensures IsCString(h) && IsCString(nd) && Occurrence(h, nd) == None
  {
    LenUnique(h, 8);
    LenUnique(nd, 9);
    NotFound(h, nd);
  }
}
