/** `atoi`: `strtol` clamped to the `CInt` range, with no error indication. */
module Atoi {
  import opened CStr
  import opened Strtol

  const INT_MIN: int := -0x8000_0000
  const INT_MAX: int := 0x7fff_ffff

  method Atoi(s: seq<int>, longMax: int) returns (r: int)
    requires IsCString(s)
    requires longMax == INT32_MAX || longMax == INT64_MAX
    requires DecValue(s[..DigitRun(s)]) <= longMax
    ensures INT_MIN <= r <= INT_MAX
    ensures var v := DecValue(s[..DigitRun(s)]); r == if v > INT_MAX then INT_MAX else v
  {
    var result := Strtol.Strtol(s, longMax);
    if result > INT_MAX {
      r := INT_MAX;
    } else if result < INT_MIN {
      r := INT_MIN;
    } else {
      r := result;
    }
  }

  lemma Examples()
    ensures DigitRun(Lit("123x")) == 3 && DecValue(Lit("123x")[..3]) == 123
    ensures DigitRun(Lit("")) == 0
  {
    var t := Lit("123x");
    var d1, d2, d3 := [49], [49, 50], [49, 50, 51];
    assert d2[..1] == d1 && d3[..2] == d2;
    assert DecValue(d1) == 1;
    assert DecValue(d2) == 12;
    assert t[..3] == d3;
  }
}
