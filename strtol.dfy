/** `strtol` as this library has it: a one-argument, digits-only decimal
    accumulator driven by `CStringIter`. */
module Strtol {
  import opened CStr
  import opened Lib

  const INT32_MAX: int := 0x7fff_ffff
  const INT64_MAX: int := 0x7fff_ffff_ffff_ffff

  predicate IsAsciiDigit(b: int) { '0' as int <= b <= '9' as int }

  /** Length of the longest prefix made of ASCII digits. */
  function DigitRun(s: seq<int>): (n: nat)
    requires 0 in s
    ensures n <= Len(s) && !IsAsciiDigit(s[n])
    ensures forall i :: 0 <= i < n ==> IsAsciiDigit(s[i])
  {
    if !IsAsciiDigit(s[0]) then 0 else DigitRun(s[1..]) + 1
  }

  /** Decimal value of a digit string, most significant digit first. */
  function DecValue(ds: seq<int>): (v: int)
  {
    if ds == [] then 0 else DecValue(ds[..|ds| - 1]) * 10 + (ds[|ds| - 1] - '0' as int)
  }

  lemma {:induction false} DecValueNonNegative(ds: seq<int>)
    requires forall i :: 0 <= i < |ds| ==> IsAsciiDigit(ds[i])
    ensures DecValue(ds) >= 0
  {
    if ds != [] {
      DecValueNonNegative(ds[..|ds| - 1]);
    }
  }

  /** Extending a digit string never lowers its value. */
  lemma {:induction false} DecValueMonotone(s: seq<int>, j: nat, k: nat)
    requires j <= k <= |s|
    requires forall i :: 0 <= i < k ==> IsAsciiDigit(s[i])
    ensures 0 <= DecValue(s[..j]) <= DecValue(s[..k])
  {
    if j == k {
      DecValueNonNegative(s[..j]);
    } else {
      DecValueMonotone(s, j, k - 1);
      assert s[..k][..k - 1] == s[..k - 1];
    }
  }

  /** The accumulated result; the source's `result * 10 + d` has no
      overflow guard, so callers must keep the digit prefix within `CLong`. */
  method Strtol(s: seq<int>, longMax: int) returns (r: int)
    requires IsCString(s)
    requires longMax == INT32_MAX || longMax == INT64_MAX
    requires DecValue(s[..DigitRun(s)]) <= longMax
    ensures r == DecValue(s[..DigitRun(s)])
    ensures 0 <= r <= longMax
  {
    r := 0;
    var it := new CStringIter(s);
    ghost var k: nat := 0;
    while true
      invariant it.Valid() && it.ptr == s && it.idx == k && k <= DigitRun(s)
      invariant r == DecValue(s[..k])
      decreases Len(s) - k
    {
      var c := it.Next();
      if c.None? {
        break;
      }
      if c.value == 0 {
        break;
      }
      if '0' as int <= c.value <= '9' as int {
        assert s[..k + 1][..k] == s[..k];
        DecValueMonotone(s, k + 1, DigitRun(s));
        r := r * 10;
        r := r + (c.value - '0' as int);
        k := k + 1;
      } else {
        break;
      }
    }
    DecValueMonotone(s, k, DigitRun(s));
  }

  /** "" converts to 0. */
  lemma ExampleEmpty(s: seq<int>)
    requires s == [0]
    ensures IsCString(s) && DigitRun(s) == 0 && DecValue(s[..0]) == 0
  {
    assert s[0] == 0;
  }

  /** "1" converts to 1. */
  lemma ExampleOne(s: seq<int>)
    requires s == [49, 0]
    ensures IsCString(s) && DigitRun(s) == 1 && DecValue(s[..1]) == 1
  {
    assert s[1] == 0;
    assert DigitRun(s) == 1 by { assert IsAsciiDigit(s[0]); }
    assert s[..1][..0] == [];
  }

  /** "123" converts to 123. */
  lemma ExampleThree(s: seq<int>)
    requires s == [49, 50, 51, 0]
    ensures IsCString(s) && DigitRun(s) == 3 && DecValue(s[..3]) == 123
  {
    assert s[3] == 0;
    assert DigitRun(s) == 3 by {
      assert IsAsciiDigit(s[0]) && IsAsciiDigit(s[1]) && IsAsciiDigit(s[2]);
    }
    assert s[..3][..2] == s[..2] && s[..2][..1] == s[..1] && s[..1][..0] == [];
    assert DecValue(s[..1]) == 1;
    assert DecValue(s[..2]) == 12;
  }
}
