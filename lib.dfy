/** `CStringIter`: walks a NUL-terminated string byte by byte. */
module Lib {
  import opened CStr

  class CStringIter {
    /** The string the `ptr` field points at. */
    const ptr: seq<int>
    /** Offset of the next byte to read. */
    var idx: nat

    /** The cursor never moves past the terminator. */
    ghost predicate Valid()
      reads this
    {
      0 in ptr && idx <= Len(ptr)
    }

    /** The bytes still to come, before the terminator. */
    ghost function Rest(): (r: seq<int>)
      reads this
      requires Valid()
    {
      ptr[idx..Len(ptr)]
    }

    constructor (s: seq<int>)
      requires 0 in s
      ensures Valid() && ptr == s && idx == 0
      ensures Rest() == Content(s)
    {
      ptr := s;
      idx := 0;
    }

    /** `Iterator::next`: `None` at the terminator (the cursor stays put),
        otherwise the byte under the cursor, which then advances. */
    method Next() returns (c: Option<int>)
      requires Valid()
      modifies this
      ensures Valid()
      ensures old(idx) == Len(ptr) ==> c == None && idx == old(idx)
      ensures old(idx) < Len(ptr) ==>
        c == Some(ptr[old(idx)]) && c.value != 0 && idx == old(idx) + 1
      ensures c == None <==> old(Rest()) == []
      ensures c.Some? ==> [c.value] + Rest() == old(Rest())
    {
      var b := ptr[idx];
      if b == 0 {
        c := None;
      } else {
        idx := idx + 1;
        c := Some(b);
      }
    }
  }

  /** Drains an iterator made by `new(s)`: the bytes produced are exactly
      those of `s` before its first NUL, in order. */
  method Collect(s: seq<int>) returns (out: seq<int>)
    requires 0 in s
    ensures out == Content(s)
  {
    var it := new CStringIter(s);
    out := [];
    while true
      invariant it.Valid() && it.ptr == s
      invariant out + it.Rest() == Content(s)
      decreases Len(s) - it.idx
    {
      var c := it.Next();
      if c.None? {
        break;
      }
      out := out + [c.value];
    }
  }
}
