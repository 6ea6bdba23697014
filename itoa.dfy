/** `utoa` and `itoa`: render an integer in base 2..16 into a bounded buffer.
    The digits are produced least significant first, one per buffer slot, and
    the written prefix is then reversed in place. */
module Itoa {
  import opened CStr

  const U64_LIMIT: nat := 0x1_0000_0000_0000_0000
  const I64_MIN: int := -0x8000_0000_0000_0000
  const I64_MAX: int := 0x7fff_ffff_ffff_ffff

  function Pow(b: nat, k: nat): (p: nat)
    ensures b >= 1 ==> p >= 1
  {
    if k == 0 then 1 else b * Pow(b, k - 1)
  }

  /** '0'..'9' or 'a'..'f'. */
  predicate IsDigitChar(c: int)
  {
    (48 <= c <= 57) || (97 <= c <= 102)
  }

  /** The character for one digit value: '0'..'9', then 'a'.. */
  function DigitChar(d: nat): (c: int)
    requires d < 16
    ensures IsDigitChar(c)
  {
    if d <= 9 then d + 48 else d - 10 + 97
  }

  /** Inverse of `DigitChar` on its range. */
  function CharValue(c: int): int
  {
    if 48 <= c <= 57 then c - 48 else c - 97 + 10
  }

  /** The digit characters of u, least significant first; zero is "0". */
  function LsdChars(u: nat, radix: nat): (cs: seq<int>)
    requires 2 <= radix <= 16
    ensures |cs| >= 1 && forall k :: 0 <= k < |cs| ==> IsDigitChar(cs[k])
    ensures cs[0] == DigitChar(u % radix)
    decreases u
  {
    if u / radix == 0 then [DigitChar(u % radix)]
    else DivShrinks(u, radix); [DigitChar(u % radix)] + LsdChars(u / radix, radix)
  }

  function Reversed(s: seq<int>): (r: seq<int>)
    ensures |r| == |s| && forall k :: 0 <= k < |s| ==> r[k] == s[|s| - 1 - k]
  {
    seq(|s|, k requires 0 <= k < |s| => s[|s| - 1 - k])
  }

  /** The digits of u, most significant first. */
  function Digits(u: nat, radix: nat): (ds: seq<int>)
    requires 2 <= radix <= 16
  {
    Reversed(LsdChars(u, radix))
  }

  /** Decodes digits given most significant first. */
  function Value(ds: seq<int>, radix: nat): int
  {
    if ds == [] then 0 else Value(ds[..|ds| - 1], radix) * radix + CharValue(ds[|ds| - 1])
  }

  function Min(a: nat, b: nat): nat
  {
    if a <= b then a else b
  }

  /** The return value of `utoa`. */
  function UtoaResult(u: nat, sLen: nat, radix: nat): int
    requires 2 <= radix <= 16
  {
    var n := |LsdChars(u, radix)|;
    if u > 0 && n > sLen then -1 else Min(n, sLen)
  }

  /** The bytes `utoa` stores from offset `at`: on failure the sLen least
      significant digits, unreversed; otherwise the digits and, room
      permitting, a NUL. */
  function UtoaWritten(u: nat, sLen: nat, radix: nat): (w: seq<int>)
    requires 2 <= radix <= 16
    ensures |w| <= sLen
  {
    var lsd := LsdChars(u, radix);
    var n := Min(|lsd|, sLen);
    if u > 0 && |lsd| > sLen then lsd[..n]
    else Reversed(lsd[..n]) + (if n < sLen then [0] else [])
  }

  function Overwrite(buf: seq<int>, at: nat, w: seq<int>): (r: seq<int>)
    requires at + |w| <= |buf|
    ensures |r| == |buf| && r[..at] == buf[..at] && r[at..at + |w|] == w
    ensures r[at + |w|..] == buf[at + |w|..]
  {
    buf[..at] + w + buf[at + |w|..]
  }

  /** Reverses a[lo..hi] in place (`slice::reverse`). */
  method ReverseRange(a: array<int>, lo: nat, hi: nat)
    requires lo <= hi <= a.Length
    modifies a
    ensures a[..] == Overwrite(old(a[..]), lo, Reversed(old(a[lo..hi])))
  {
    ghost var orig := a[..];
    var i, j := lo, hi;
    while i + 1 < j
      invariant lo <= i <= j <= hi && i - lo == hi - j
      invariant forall k :: lo <= k < i ==> a[k] == orig[hi - 1 - (k - lo)]
      invariant forall k :: j <= k < hi ==> a[k] == orig[lo + (hi - 1 - k)]
      invariant forall k :: 0 <= k < a.Length && !(lo <= k < i) && !(j <= k < hi) ==> a[k] == orig[k]
      decreases j - i
    {
      a[i], a[j - 1] := a[j - 1], a[i];
      i, j := i + 1, j - 1;
    }
    assert forall k :: lo <= k < hi ==> a[k] == orig[hi - 1 - (k - lo)];
    ReversedInPlace(orig, a[..], lo, hi);
  }

  /** The pointwise description of a reversed range is the `Overwrite` one. */
  lemma ReversedInPlace(orig: seq<int>, now: seq<int>, lo: nat, hi: nat)
    requires lo <= hi <= |orig| == |now|
    requires forall k :: lo <= k < hi ==> now[k] == orig[hi - 1 - (k - lo)]
    requires forall k :: 0 <= k < |now| && !(lo <= k < hi) ==> now[k] == orig[k]
    ensures now == Overwrite(orig, lo, Reversed(orig[lo..hi]))
  {
    var w := Overwrite(orig, lo, Reversed(orig[lo..hi]));
    assert forall k :: 0 <= k < |now| ==> now[k] == w[k];
  }

  /** The first loop of `utoa`: one digit per slot, least significant
      first, until the value is used up or the slots run out. */
  method PushDigits(u0: nat, s: array<int>, at: nat, sLen: nat, radix: nat)
      returns (u: nat, index: nat)
    requires 2 <= radix <= 16 && at + sLen <= s.Length
    modifies s
    ensures u != 0 <==> u0 != 0 && |LsdChars(u0, radix)| > sLen
    ensures index == Min(|LsdChars(u0, radix)|, sLen)
    ensures s[..] == Overwrite(old(s[..]), at, LsdChars(u0, radix)[..index])
  {
    ghost var orig := s[..];
    ghost var lsd := LsdChars(u0, radix);
    LsdTail(u0, radix);
    u := u0;
    index := 0;
    while index < sLen
      invariant index <= sLen && index < |lsd|
      invariant LsdChars(u, radix) == lsd[index..]
      invariant index == 0 ==> u == u0
      invariant index > 0 ==> u != 0
      invariant forall k :: 0 <= k < index ==> s[at + k] == lsd[k]
      invariant forall k :: 0 <= k < s.Length && !(at <= k < at + index) ==> s[k] == orig[k]
    {
      var digit := u % radix;
      s[at + index] := DigitChar(digit);
      index := index + 1;
      LsdTail(u, radix);
      u := u / radix;
      if u == 0 {
        assert index == |lsd|;
        break;
      }
    }
    OverwritePointwise(orig, s[..], at, lsd[..index]);
  }

  lemma OverwritePointwise(orig: seq<int>, now: seq<int>, at: nat, w: seq<int>)
    requires at + |w| <= |orig| == |now|
    requires forall k :: 0 <= k < |w| ==> now[at + k] == w[k]
    requires forall k :: 0 <= k < |now| && !(at <= k < at + |w|) ==> now[k] == orig[k]
    ensures now == Overwrite(orig, at, w)
  {
    var r := Overwrite(orig, at, w);
    assert forall k :: 0 <= k < |now| ==> now[k] == r[k];
  }

  method Utoa(u0: nat, s: array<int>, at: nat, sLen: nat, radix: nat) returns (r: int)
    requires u0 < U64_LIMIT && 2 <= radix <= 16 && at + sLen <= s.Length
    modifies s
    ensures r == UtoaResult(u0, sLen, radix)
    ensures s[..] == Overwrite(old(s[..]), at, UtoaWritten(u0, sLen, radix))
  {
    ghost var orig := s[..];
    ghost var lsd := LsdChars(u0, radix);
    var u, index := PushDigits(u0, s, at, sLen, radix);
    if u != 0 {
      return -1;
    }
    ghost var tail: seq<int> := if index < sLen then [0] else [];
    if index < sLen {
      s[at + index] := 0;
    }
    OverwriteAppend(orig, at, lsd[..index], tail);
    ghost var before := s[..];
    ghost var v := Reversed(lsd[..index]);
    ReverseRange(s, at, at + index);
    assert s[..] == Overwrite(before, at, v);
    OverwriteTwice(orig, at, lsd[..index] + tail, v);
    assert (lsd[..index] + tail)[|v|..] == tail;
    assert UtoaWritten(u0, sLen, radix) == v + tail;
    r := index;
  }

  /** Storing the terminator, if any, right after the digits. */
  lemma OverwriteAppend(orig: seq<int>, at: nat, w: seq<int>, tail: seq<int>)
    requires at + |w| + |tail| <= |orig| && |tail| <= 1
    ensures var now := Overwrite(orig, at, w);
      (if tail == [] then now else now[at + |w| := tail[0]]) == Overwrite(orig, at, w + tail)
    ensures Overwrite(orig, at, w + tail)[at..at + |w|] == w
    ensures (w + tail)[|w|..] == tail
  {
    var now := Overwrite(orig, at, w);
    var a := if tail == [] then now else now[at + |w| := tail[0]];
    var b := Overwrite(orig, at, w + tail);
    assert forall k :: 0 <= k < |orig| ==> a[k] == b[k];
    assert b[at..at + |w|] == (w + tail)[..|w|];
  }

  lemma OverwriteTwice(buf: seq<int>, at: nat, w: seq<int>, v: seq<int>)
    requires at + |w| <= |buf| && |v| <= |w|
    ensures Overwrite(Overwrite(buf, at, w), at, v) == Overwrite(buf, at, v + w[|v|..])
  {
    var a := Overwrite(Overwrite(buf, at, w), at, v);
    var b := Overwrite(buf, at, v + w[|v|..]);
    assert forall k :: 0 <= k < |buf| ==> a[k] == b[k];
  }

  /** One digit peeled off: the rest are the digits of u / radix. */
  lemma LsdTail(u: nat, radix: nat)
    requires 2 <= radix <= 16
    ensures u / radix >= 0 && u == u % radix + radix * (u / radix)
    ensures u / radix == 0 ==> |LsdChars(u, radix)| == 1
    ensures u / radix != 0 ==> LsdChars(u, radix)[1..] == LsdChars(u / radix, radix)
  {
    DivMod(u, radix);
    DivBound(u, radix, 0);
  }

  lemma DivMod(u: nat, radix: nat)
    requires radix >= 2
    ensures u / radix >= 0 && u == u % radix + radix * (u / radix)
  {
  }

  /** `itoa`: for a negative i, a '-' goes in the first slot and `utoa`
      renders |i| in the rest; the count returned is `utoa`'s. The magnitude
      of i64::MIN is 2^63, which is what the wrapping `-i` then `as u64`
      gives. */
  method Itoa(i: int, s: array<int>, at: nat, sLen: nat, radix: nat) returns (r: int)
    requires I64_MIN <= i <= I64_MAX && 2 <= radix <= 16 && at + sLen <= s.Length
    modifies s
    ensures var m := if i < 0 then -i else i;
      if i < 0 && sLen > 0 then
        r == UtoaResult(m, sLen - 1, radix) &&
        s[..] == Overwrite(old(s[..]), at, [45] + UtoaWritten(m, sLen - 1, radix))
      else
        r == UtoaResult(m, sLen, radix) &&
        s[..] == Overwrite(old(s[..]), at, UtoaWritten(m, sLen, radix))
  {
    var isNegative := i < 0;
    var posI := if isNegative then -i else i;
    if isNegative && sLen > 0 {
      ghost var orig := s[..];
      s[at] := 45;
      assert s[..] == orig[at := 45];
      r := Utoa(posI, s, at + 1, sLen - 1, radix);
      OverwriteSign(orig, at, UtoaWritten(posI, sLen - 1, radix));
    } else {
      r := Utoa(posI, s, at, sLen, radix);
    }
  }

  /** The sign stored first, then the digits after it. */
  lemma OverwriteSign(orig: seq<int>, at: nat, w: seq<int>)
    requires at + 1 + |w| <= |orig|
    ensures Overwrite(orig[at := 45], at + 1, w) == Overwrite(orig, at, [45] + w)
  {
    var a := Overwrite(orig[at := 45], at + 1, w);
    var b := Overwrite(orig, at, [45] + w);
    assert forall k :: 0 <= k < |orig| ==> a[k] == b[k];
  }

  // Properties of the specification.

  lemma CharValueOfDigit(d: nat)
    requires d < 16
    ensures CharValue(DigitChar(d)) == d
  {
  }

  /** Least-significant-first decoding. */
  function LsdValue(cs: seq<int>, radix: nat): int
  {
    if cs == [] then 0 else CharValue(cs[0]) + radix * LsdValue(cs[1..], radix)
  }

  lemma {:induction false} LsdRoundTrip(u: nat, radix: nat)
    requires 2 <= radix <= 16
    ensures LsdValue(LsdChars(u, radix), radix) == u
    decreases u
  {
    var cs := LsdChars(u, radix);
    LsdTail(u, radix);
    var q: nat := u / radix;
    CharValueOfDigit(u % radix);
    if q != 0 {
      DivShrinks(u, radix);
      LsdRoundTrip(q, radix);
    } else {
      assert cs[1..] == [];
    }
  }

  lemma {:induction false} ValueOfReversed(cs: seq<int>, radix: nat)
    ensures Value(Reversed(cs), radix) == LsdValue(cs, radix)
  {
    if cs != [] {
      var rr := Reversed(cs);
      assert rr == Reversed(cs[1..]) + [cs[0]] by {
        assert forall k :: 0 <= k < |rr| - 1 ==> rr[k] == Reversed(cs[1..])[k];
      }
      assert rr[..|rr| - 1] == Reversed(cs[1..]);
      ValueOfReversed(cs[1..], radix);
    }
  }

  /** Decoding the rendered digits in the same radix gives back u. */
  lemma RoundTrip(u: nat, radix: nat)
    requires 2 <= radix <= 16
    ensures Value(Digits(u, radix), radix) == u
  {
    ValueOfReversed(LsdChars(u, radix), radix);
    LsdRoundTrip(u, radix);
  }

  /** Every rendered digit stands for a value below the radix. */
  lemma {:induction false} LsdBelowRadix(u: nat, radix: nat)
    requires 2 <= radix <= 16
    ensures forall k :: 0 <= k < |LsdChars(u, radix)| ==> CharValue(LsdChars(u, radix)[k]) < radix
    decreases u
  {
    var cs := LsdChars(u, radix);
    CharValueOfDigit(u % radix);
    LsdTail(u, radix);
    if u / radix != 0 {
      DivShrinks(u, radix);
      LsdBelowRadix(u / radix, radix);
      forall k | 1 <= k < |cs|
        ensures CharValue(cs[k]) < radix
      {
        assert cs[k] == cs[1..][k - 1];
      }
    }
  }

  lemma DigitsBelowRadix(u: nat, radix: nat)
    requires 2 <= radix <= 16
    ensures forall k :: 0 <= k < |Digits(u, radix)| ==> CharValue(Digits(u, radix)[k]) < radix
  {
    LsdBelowRadix(u, radix);
    var cs := LsdChars(u, radix);
    assert forall k :: 0 <= k < |cs| ==> Digits(u, radix)[k] == cs[|cs| - 1 - k];
  }

  /** Every rendered character is a digit or a lowercase letter a..f, so the
      rendering never contains a NUL. */
  lemma DigitsAreLowercase(u: nat, radix: nat)
    requires 2 <= radix <= 16
    ensures forall c :: c in Digits(u, radix) ==> IsDigitChar(c)
    ensures 0 !in Digits(u, radix)
  {
    var cs := LsdChars(u, radix);
    var ds := Digits(u, radix);
    forall c | c in ds
      ensures IsDigitChar(c)
    {
      var k :| 0 <= k < |ds| && ds[k] == c;
      assert c == cs[|cs| - 1 - k];
    }
  }

  lemma MulMonotone(a: nat, x: nat, y: nat)
    requires x <= y
    ensures a * x <= a * y
  {
    assert a * y - a * x == a * (y - x);
  }

  lemma DivBound(u: nat, radix: nat, p: nat)
    requires radix >= 2
    ensures u / radix < p <==> u < radix * p
  {
    var q := u / radix;
    assert u == radix * q + u % radix;
    if q < p {
      MulMonotone(radix, q + 1, p);
    } else {
      MulMonotone(radix, p, q);
    }
  }

  lemma LsdLength(u: nat, radix: nat)
    requires 2 <= radix <= 16
    ensures |LsdChars(u, radix)| == if u / radix == 0 then 1 else 1 + |LsdChars(u / radix, radix)|
  {
  }
  lemma FitsStep(u: nat, radix: nat, k: nat)
    requires 2 <= radix && k >= 1
    ensures u < Pow(radix, k) <==> u / radix < Pow(radix, k - 1)
  {
    DivBound(u, radix, Pow(radix, k - 1));
  }
  lemma DivShrinks(u: nat, radix: nat)
    requires radix >= 2 && u / radix != 0
    ensures u / radix < u
  {
    assert u != 0;
    DivBound(u, radix, u);
    MulMonotone(u, 2, radix);
    assert u * radix == radix * u;
  }
  /** u has at most k digits exactly when u < radix^k (and k >= 1). */
  lemma {:induction false} DigitCount(u: nat, radix: nat, k: nat)
    requires 2 <= radix <= 16
    ensures |LsdChars(u, radix)| <= k <==> k >= 1 && u < Pow(radix, k)
    decreases u
  {
    var q: nat := u / radix;
    var n := |LsdChars(u, radix)|;
    LsdLength(u, radix);
    if k == 0 {
      assert n >= 1;
    } else {
      var p := Pow(radix, k - 1);
      assert p >= 1;
      FitsStep(u, radix, k);
      if q == 0 {
        assert n == 1;
        assert q < p;
      } else if k == 1 {
        assert p == 1;
        assert n >= 2;
        assert !(q < p);
      } else {
        var m := |LsdChars(q, radix)|;
        assert n == 1 + m;
        DivShrinks(u, radix);
        DigitCount(q, radix, k - 1);
      }
    }
  }

  /** `utoa` fails exactly when u needs more than sLen digits. */
  lemma FailsIffTooLong(u: nat, sLen: nat, radix: nat)
    requires 2 <= radix <= 16
    ensures UtoaResult(u, sLen, radix) == -1 <==> u >= Pow(radix, sLen)
  {
    DigitCount(u, radix, sLen);
  }

  /** On success with room to spare the buffer holds a C string whose
      contents are the digits, and the count is their number. */
  lemma SuccessIsCString(u: nat, sLen: nat, radix: nat)
    requires 2 <= radix <= 16 && |LsdChars(u, radix)| < sLen
    ensures UtoaResult(u, sLen, radix) == |Digits(u, radix)|
    ensures var w := UtoaWritten(u, sLen, radix); 0 in w && Content(w) == Digits(u, radix)
  {
    var lsd := LsdChars(u, radix);
    var w := UtoaWritten(u, sLen, radix);
    assert lsd[..|lsd|] == lsd;
    assert w == Digits(u, radix) + [0];
    LenUnique(w, |lsd|);
  }

  /** Zero renders as "0", with count 1, given at least one slot. */
  lemma Zero(sLen: nat, radix: nat)
    requires 2 <= radix <= 16 && sLen >= 1
    ensures UtoaResult(0, sLen, radix) == 1 && Digits(0, radix) == [48]
  {
  }

  lemma {:induction false} PowAdd(b: nat, m: nat, n: nat)
    ensures Pow(b, m + n) == Pow(b, m) * Pow(b, n)
    decreases m
  {
    if m > 0 {
      PowAdd(b, m - 1, n);
      var p, q := Pow(b, m - 1), Pow(b, n);
      assert Pow(b, m + n) == b * (p * q);
      MulAssoc(b, p, q);
    }
  }

  lemma MulAssoc(a: int, b: int, c: int)
    ensures a * (b * c) == (a * b) * c
  {
  }

  /** A 64-bit value needs at most 20 decimal digits. */
  lemma DecimalFitsIn20(u: nat)
    requires u < U64_LIMIT
    ensures |Digits(u, 10)| <= 20
  {
    TenPow20();
    DigitCount(u, 10, 20);
  }

  lemma TenPow20()
    ensures Pow(10, 20) == 100000000000000000000
  {
    assert Pow(10, 1) == 10;
    assert Pow(10, 2) == 100;
    assert Pow(10, 3) == 1000;
    assert Pow(10, 4) == 10000;
    assert Pow(10, 5) == 100000;
    assert Pow(10, 6) == 1000000;
    assert Pow(10, 7) == 10000000;
    assert Pow(10, 8) == 100000000;
    assert Pow(10, 9) == 1000000000;
    assert Pow(10, 10) == 10000000000;
    assert Pow(10, 11) == 100000000000;
    assert Pow(10, 12) == 1000000000000;
    assert Pow(10, 13) == 10000000000000;
    assert Pow(10, 14) == 100000000000000;
    assert Pow(10, 15) == 1000000000000000;
    assert Pow(10, 16) == 10000000000000000;
    assert Pow(10, 17) == 100000000000000000;
    assert Pow(10, 18) == 1000000000000000000;
    assert Pow(10, 19) == 10000000000000000000;
  }

  lemma ExampleDecimal()
    ensures Digits(123, 10) == [49, 50, 51]
  {
  }

  /** 0xDEAD */
  lemma HexDigitsLsdHigh()
    ensures LsdChars(57005, 16) == [100, 97, 101, 100]
  {
    assert LsdChars(13, 16) == [100];
    assert LsdChars(222, 16) == [101, 100];
    assert LsdChars(3562, 16) == [97, 101, 100];
  }

  lemma HexDigitsLsd()
    ensures LsdChars(0xDEADBEEF, 16) == [102, 101, 101, 98, 100, 97, 101, 100]
  {
    HexDigitsLsdHigh();
    assert LsdChars(912091, 16) == [98, 100, 97, 101, 100];
    assert LsdChars(14593470, 16) == [101, 98, 100, 97, 101, 100];
    assert LsdChars(233495534, 16) == [101, 101, 98, 100, 97, 101, 100];
  }

  lemma ExampleHex()
    ensures Digits(0xDEADBEEF, 16) == [100, 101, 97, 100, 98, 101, 101, 102]
  {
    HexDigitsLsd();
    var l := [102, 101, 101, 98, 100, 97, 101, 100];
    var d := Reversed(l);
    assert d == [100, 101, 97, 100, 98, 101, 101, 102] by {
      assert forall k :: 0 <= k < 8 ==> d[k] == l[7 - k];
    }
  }

  lemma ExampleOctal()
    ensures Digits(0x1FC, 8) == [55, 55, 52]
  {
  }

  /** 0b111000 */
  lemma BinaryDigitsLsdHigh()
    ensures LsdChars(56, 2) == [48, 48, 48, 49, 49, 49]
  {
    assert LsdChars(1, 2) == [49];
    assert LsdChars(3, 2) == [49, 49];
    assert LsdChars(7, 2) == [49, 49, 49];
    assert LsdChars(14, 2) == [48, 49, 49, 49];
    assert LsdChars(28, 2) == [48, 48, 49, 49, 49];
  }

  lemma BinaryDigitsLsd()
    ensures LsdChars(0xE2, 2) == [48, 49, 48, 48, 48, 49, 49, 49]
  {
    BinaryDigitsLsdHigh();
    assert LsdChars(113, 2) == [49, 48, 48, 48, 49, 49, 49];
  }

  lemma ExampleBinary()
    ensures Digits(0xE2, 2) == [49, 49, 49, 48, 48, 48, 49, 48]
  {
    BinaryDigitsLsd();
    var l := [48, 49, 48, 48, 48, 49, 49, 49];
    var d := Reversed(l);
    assert d == [49, 49, 49, 48, 48, 48, 49, 48] by {
      assert forall k :: 0 <= k < 8 ==> d[k] == l[7 - k];
    }
  }

  /** -123 in a 32-byte buffer reads "-123"; the count excludes the sign. */
  lemma ExampleNegative()
    ensures UtoaResult(123, 31, 10) == 3
    ensures var w := [45] + UtoaWritten(123, 31, 10); 0 in w && Content(w) == [45, 49, 50, 51]
  {
    ExampleDecimal();
    SuccessIsCString(123, 31, 10);
    var w := [45] + UtoaWritten(123, 31, 10);
    assert w == [45, 49, 50, 51] + UtoaWritten(123, 31, 10)[3..];
    LenUnique(w, 4);
  }

  lemma ExampleTooSmall()
    ensures UtoaResult(10, 1, 10) == -1
  {
    FailsIffTooLong(10, 1, 10);
  }
}
