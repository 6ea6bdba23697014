/** `strtoul`: the BSD/libiberty parser. Skip white space, read one optional
    sign, an optional "0x"/"0X" prefix when the base allows it, then the
    longest run of digits below the base. An overflowing value saturates at
    ULONG_MAX and ignores the sign; otherwise a '-' negates modulo 2^64.
    `unsigned long` is taken as 64 bits wide. */
module Strtoul {
  import opened CStr
  import Isspace
  import Isdigit
  import Itoa

  const U64_LIMIT: nat := 0x1_0000_0000_0000_0000
  const ULONG_MAX: nat := U64_LIMIT - 1
  const INT_MIN: int := -0x8000_0000
  const INT_MAX: int := 0x7fff_ffff

  /** The bytes the local `isspace` accepts: ' ', \n, \t, \v, \f, \r. */
  predicate IsSpace(c: int)
  {
    c == 32 || c == 10 || c == 9 || c == 0x0b || c == 0x0c || c == 13
  }

  predicate IsDigit(c: int)
  {
    48 <= c <= 57
  }

  predicate IsAlpha(c: int)
  {
    (97 <= c <= 122) || (65 <= c <= 90)
  }

  predicate IsUpper(c: int)
  {
    65 <= c <= 90
  }

  /** The value of a digit or letter: '0'..'9' are 0..9, letters of either
      case are 10..35. */
  function DigitValue(c: int): (d: int)
    requires IsDigit(c) || IsAlpha(c)
    ensures 0 <= d < 36
  {
    if IsDigit(c) then c - 48 else if IsUpper(c) then c - (65 - 10) else c - (97 - 10)
  }

  /** c is a digit of the given base: the scan takes it. */
  predicate Accepts(c: int, radix: int)
  {
    (IsDigit(c) || IsAlpha(c)) && DigitValue(c) < radix
  }

  /** `-(acc as CLong) as CULong`, taken as release-mode wrap-around. */
  function Negate(v: nat): (r: nat)
    requires v < U64_LIMIT
    ensures r < U64_LIMIT && (r + v) % U64_LIMIT == 0
  {
    (U64_LIMIT - v) % U64_LIMIT
  }

  /** The value of the digits s[q..i], most significant first. */
  function Val(s: seq<int>, q: nat, i: nat, radix: int): (v: int)
    requires q <= i <= |s| && forall j :: q <= j < i ==> IsDigit(s[j]) || IsAlpha(s[j])
    ensures radix >= 0 ==> v >= 0
    decreases i
  {
    if i == q then 0 else Val(s, q, i - 1, radix) * radix + DigitValue(s[i - 1])
  }

  /** The first offset from i on that is not white space. */
  function SpaceEnd(s: seq<int>, i: nat): (j: nat)
    requires IsCString(s) && i <= Len(s)
    ensures i <= j <= Len(s) && !IsSpace(s[j])
    ensures forall k :: i <= k < j ==> IsSpace(s[k])
    decreases Len(s) - i
  {
    if IsSpace(s[i]) then SpaceEnd(s, i + 1) else i
  }

  /** The first offset from i on that is not a digit of the base. */
  function DigitsEnd(s: seq<int>, i: nat, radix: int): (j: nat)
    requires IsCString(s) && i <= Len(s)
    ensures i <= j <= Len(s) && !Accepts(s[j], radix)
    ensures forall k :: i <= k < j ==> Accepts(s[k], radix)
    decreases Len(s) - i
  {
    if Accepts(s[i], radix) then DigitsEnd(s, i + 1, radix) else i
  }

  /** Whether a '-' was read, where the digits start, and the base in force. */
  datatype Header = Header(neg: bool, digits: nat, radix: int)

  function ReadHeader(s: seq<int>, base: int): (h: Header)
    requires IsCString(s)
    ensures h.digits <= Len(s)
  {
    var start := SpaceEnd(s, 0);
    var neg := s[start] == '-' as int;
    var p := if s[start] == '-' as int || s[start] == '+' as int then start + 1 else start;
    var hex := (base == 0 || base == 16) && s[p] == '0' as int
      && (s[p + 1] == 'x' as int || s[p + 1] == 'X' as int);
    var q := if hex then p + 2 else p;
    var radix := if hex then 16 else if base == 0 then (if s[q] == '0' as int then 8 else 10) else base;
    Header(neg, q, radix)
  }

  /** The value returned and where `*endptr` points (`None`: null). */
  datatype Parsed = Parsed(value: nat, end: Option<nat>)

  /** Reference definition of the whole call. */
  function Parse(s: seq<int>, base: int): Parsed
    requires IsCString(s)
  {
    var h := ReadHeader(s, base);
    var e := DigitsEnd(s, h.digits, h.radix);
    var v := Val(s, h.digits, e, h.radix);
    if e == h.digits then Parsed(0, None)
    else if v > ULONG_MAX then Parsed(ULONG_MAX, Some(e))
    else if h.neg then Parsed(Negate(v), Some(e))
    else Parsed(v, Some(e))
  }

  method Strtoul(s: seq<int>, base: int) returns (acc: nat, end: Option<nat>)
    requires IsCString(s) && INT_MIN <= base <= INT_MAX
    ensures Parsed(acc, end) == Parse(s, base)
  {
    var neg, i, radix := SkipHeader(s, base);
    var any;
    acc, any, i := ScanDigits(s, i, radix);
    if neg && any > 0 {
      acc := Negate(acc);
    }
    end := if any != 0 then Some(i) else None;
  }

  /** White space, sign and base prefix, leaving the cursor on the first
      candidate digit. */
  method SkipHeader(s: seq<int>, base: int) returns (neg: bool, i: nat, radix: int)
    requires IsCString(s)
    ensures Header(neg, i, radix) == ReadHeader(s, base)
  {
    i := 0;
    var c := s[i];
    while IsSpace(c)
      invariant i <= Len(s) && c == s[i]
      invariant SpaceEnd(s, i) == SpaceEnd(s, 0)
      decreases Len(s) - i
    {
      i := i + 1;
      c := s[i];
    }
    neg := false;
    if c == '-' as int {
      neg := true;
      i := i + 1;
      c := s[i];
    } else if c == '+' as int {
      i := i + 1;
      c := s[i];
    }
    radix := base;
    if (radix == 0 || radix == 16) && c == '0' as int && (s[i + 1] == 'x' as int || s[i + 1] == 'X' as int) {
      c := s[i + 2];
      i := i + 2;
      radix := 16;
    }
    if radix == 0 {
      radix := if c == '0' as int then 8 else 10;
    }
  }

  /** The digit loop from offset q: `any` is 0 if no digit was taken, -1
      after an overflow and 1 otherwise; i is the first offset not taken. */
  method ScanDigits(s: seq<int>, q: nat, radix: int) returns (acc: nat, any: int, i: nat)
    requires IsCString(s) && q <= Len(s) && radix != 0 && INT_MIN <= radix <= INT_MAX
    ensures i == DigitsEnd(s, q, radix)
    ensures any == 0 <==> i == q
    ensures any == 0 || any == 1 || any == -1
    ensures any >= 0 ==> acc == Val(s, q, i, radix) <= ULONG_MAX
    ensures any < 0 ==> acc == ULONG_MAX && Val(s, q, i, radix) > ULONG_MAX
  {
    var ubase, cutoff, cutlim := Cutoffs(radix);
    i := q;
    var c := s[i];
    acc := 0;
    any := 0;
    while true
      invariant q <= i <= Len(s) && c == s[i]
      invariant DigitsEnd(s, i, radix) == DigitsEnd(s, q, radix)
      invariant forall k :: q <= k < i ==> Accepts(s[k], radix)
      invariant any == 0 || any == 1 || any == -1
      invariant any == 0 <==> i == q
      invariant any >= 0 ==> acc == Val(s, q, i, radix) <= ULONG_MAX
      invariant any < 0 ==> acc == ULONG_MAX && Val(s, q, i, radix) > ULONG_MAX
      decreases Len(s) - i
    {
      var d;
      if IsDigit(c) {
        d := c - '0' as int;
      } else if IsAlpha(c) {
        d := c - if IsUpper(c) then 'A' as int - 10 else 'a' as int - 10;
      } else {
        break;
      }
      if d >= radix {
        break;
      }
      assert ubase == radix && d == DigitValue(c);
      ghost var v := Val(s, q, i, radix);
      assert Val(s, q, i + 1, radix) == v * ubase + d;
      if any < 0 {
        ValGrows(Val(s, q, i, radix), radix, d);
        i := i + 1;
        c := s[i];
        continue;
      }
      acc, any := Accumulate(acc, d, ubase, cutoff, cutlim);
      i := i + 1;
      c := s[i];
    }
  }

  /** `base as CULong`, and ULONG_MAX divided by it with remainder. */
  method Cutoffs(radix: int) returns (ubase: nat, cutoff: nat, cutlim: nat)
    requires radix != 0 && INT_MIN <= radix <= INT_MAX
    ensures ubase >= 1 && (radix >= 1 ==> ubase == radix)
    ensures cutoff == ULONG_MAX / ubase && cutlim == ULONG_MAX % ubase
  {
    ubase := radix % U64_LIMIT;
    cutoff := ULONG_MAX / ubase;
    cutlim := ULONG_MAX % ubase;
  }

  /** One digit into the accumulator, guarded by cutoff and cutlim: -1 and
      ULONG_MAX on overflow, otherwise 1 and acc * base + d. */
  method Accumulate(acc: nat, d: nat, ubase: nat, cutoff: nat, cutlim: nat) returns (acc': nat, any: int)
    requires 1 <= ubase && d < ubase && cutoff == ULONG_MAX / ubase && cutlim == ULONG_MAX % ubase
    ensures acc * ubase + d > ULONG_MAX ==> any == -1 && acc' == ULONG_MAX
    ensures acc * ubase + d <= ULONG_MAX ==> any == 1 && acc' == acc * ubase + d
  {
    CutoffExact(acc, d, ubase);
    if acc > cutoff || (acc == cutoff && d > cutlim) {
      any := -1;
      acc' := ULONG_MAX;
    } else {
      any := 1;
      acc' := acc * ubase + d;
    }
  }

  /** Past ULONG_MAX the value stays past it. */
  lemma ValGrows(v: int, radix: int, d: int)
    requires v > ULONG_MAX && radix >= 1 && d >= 0
    ensures v * radix + d > ULONG_MAX
  {
    assert v * radix >= v * 1 by { MulLeft(v, radix); }
  }

  lemma MulLeft(v: int, radix: int)
    requires v >= 0 && radix >= 1
    ensures v * radix >= v
  {
  }

  /** The cutoff/cutlim test is exact: it fires precisely when
      acc * base + d would not fit in 64 bits. */
  lemma CutoffExact(acc: nat, d: nat, radix: nat)
    requires 1 <= radix && d < radix
    ensures (acc > ULONG_MAX / radix || (acc == ULONG_MAX / radix && d > ULONG_MAX % radix))
      <==> acc * radix + d > ULONG_MAX
  {
    var cutoff, cutlim := ULONG_MAX / radix, ULONG_MAX % radix;
    assert ULONG_MAX == cutoff * radix + cutlim;
    if acc > cutoff {
      assert acc * radix >= (cutoff + 1) * radix by { MulMono(cutoff + 1, acc, radix); }
    } else if acc < cutoff {
      assert acc * radix <= (cutoff - 1) * radix by { MulMono(acc, cutoff - 1, radix); }
    }
  }

  lemma MulMono(a: int, b: int, radix: nat)
    requires a <= b
    ensures a * radix <= b * radix
  {
  }

  // Properties of the specification.

  /** The local predicates agree with the exported `isspace` and `isdigit`. */
  lemma SameClassesAsCtype(c: int)
    ensures IsSpace(c) <==> Isspace.Isspace(c) == 1
    ensures IsDigit(c) <==> Isdigit.Isdigit(c) == 1
  {
  }

  /** The result is a 64-bit value; no digit means 0 and a null end; an end
      points just past a nonempty run of digits of the base in force. */
  lemma ResultShape(s: seq<int>, base: int)
    requires IsCString(s)
    ensures Parse(s, base).value <= ULONG_MAX
    ensures var h := ReadHeader(s, base);
      Parse(s, base).end.None? <==> !Accepts(s[h.digits], h.radix)
    ensures Parse(s, base).end.None? ==> Parse(s, base).value == 0
    ensures var h := ReadHeader(s, base); var p := Parse(s, base);
      p.end.Some? ==> (h.digits < p.end.value <= Len(s) && !Accepts(s[p.end.value], h.radix)
        && forall k :: h.digits <= k < p.end.value ==> Accepts(s[k], h.radix))
  {
  }

  /** Only white space is skipped, and at most one sign is read. */
  lemma HeaderShape(s: seq<int>, base: int)
    requires IsCString(s)
    ensures var h := ReadHeader(s, base); var start := SpaceEnd(s, 0);
      (forall k :: 0 <= k < start ==> IsSpace(s[k])) && !IsSpace(s[start]) &&
      (h.neg <==> s[start] == '-' as int) &&
      start <= h.digits <= start + 3
  {
  }

  /** Base 0 picks 16 after "0x"/"0X", 8 after a leading '0', else 10. */
  lemma BaseZero(s: seq<int>)
    requires IsCString(s)
    ensures var h := ReadHeader(s, 0); h.radix == 8 || h.radix == 10 || h.radix == 16
    ensures var h := ReadHeader(s, 0); h.radix == 8 ==> s[h.digits] == '0' as int
  {
  }

  /** Without overflow a '-' yields the negation modulo 2^64; with overflow
      the sign is ignored. */
  lemma SignRule(s: seq<int>, base: int)
    requires IsCString(s)
    ensures var h := ReadHeader(s, base); var e := DigitsEnd(s, h.digits, h.radix);
      var v := Val(s, h.digits, e, h.radix); var p := Parse(s, base);
      e > h.digits ==>
        (v > ULONG_MAX ==> p.value == ULONG_MAX) &&
        (v <= ULONG_MAX && h.neg ==> (p.value + v) % U64_LIMIT == 0) &&
        (v <= ULONG_MAX && !h.neg ==> p.value == v)
  {
  }

  /** On lowercase digits the value is the one `itoa` decodes. */
  lemma {:induction false} ValMatchesItoa(s: seq<int>, n: nat, radix: nat)
    requires n <= |s| && forall k :: 0 <= k < n ==> Itoa.IsDigitChar(s[k])
    ensures forall k :: 0 <= k < n ==> IsDigit(s[k]) || IsAlpha(s[k])
    ensures Val(s, 0, n, radix) == Itoa.Value(s[..n], radix)
    decreases n
  {
    if n > 0 {
      ValMatchesItoa(s, n - 1, radix);
      assert s[..n][..n - 1] == s[..n - 1];
    }
  }

  /** `strtoul` reads back what `utoa` renders, and stops at its NUL. */
  lemma InvertsUtoa(u: nat, radix: nat)
    requires 2 <= radix <= 16 && u <= ULONG_MAX
    ensures var ds := Itoa.Digits(u, radix);
      IsCString(ds + [0]) && Parse(ds + [0], radix) == Parsed(u, Some(|ds|))
  {
    var ds := Itoa.Digits(u, radix);
    var s := ds + [0];
    Itoa.DigitsAreLowercase(u, radix);
    Itoa.DigitsBelowRadix(u, radix);
    Itoa.RoundTrip(u, radix);
    assert forall k :: 0 <= k < |ds| ==> Itoa.IsDigitChar(ds[k]) by {
      forall k | 0 <= k < |ds| ensures Itoa.IsDigitChar(ds[k]) { assert ds[k] in ds; }
    }
    assert IsCString(s) by {
      assert forall k :: 0 <= k < |ds| ==> ds[k] != 0 by {
        forall k | 0 <= k < |ds| ensures ds[k] != 0 { assert ds[k] in ds; }
      }
    }
    LenUnique(s, |ds|);
    assert |ds| >= 1;
    assert SpaceEnd(s, 0) == 0;
    ValMatchesItoa(s, |ds|, radix);
    assert s[..|ds|] == ds;
    assert ReadHeader(s, radix) == Header(false, 0, radix);
    assert forall k :: 0 <= k < |ds| ==> Accepts(s[k], radix);
    DigitsRunToEnd(s, 0, |ds|, radix);
    assert s[0..|ds|] == ds;
  }

  lemma {:induction false} DigitsRunToEnd(s: seq<int>, i: nat, e: nat, radix: int)
    requires IsCString(s) && i <= e <= Len(s) && !Accepts(s[e], radix)
    requires forall k :: i <= k < e ==> Accepts(s[k], radix)
    ensures DigitsEnd(s, i, radix) == e
    decreases e - i
  {
    if i < e {
      DigitsRunToEnd(s, i + 1, e, radix);
    }
  }

  lemma {:induction false} SpaceRunToEnd(s: seq<int>, i: nat, e: nat)
    requires IsCString(s) && i <= e <= Len(s) && !IsSpace(s[e])
    requires forall k :: i <= k < e ==> IsSpace(s[k])
    ensures SpaceEnd(s, i) == e
    decreases e - i
  {
    if i < e {
      SpaceRunToEnd(s, i + 1, e);
    }
  }

  /** The leading digit bounds the value from below. */
  lemma {:induction false} LeadingDigit(s: seq<int>, q: nat, i: nat, radix: nat)
    requires q < i <= |s| && radix >= 1
    requires forall j :: q <= j < i ==> IsDigit(s[j]) || IsAlpha(s[j])
    ensures Val(s, q, i, radix) >= DigitValue(s[q]) * Itoa.Pow(radix, i - q - 1)
    decreases i
  {
    if i > q + 1 {
      LeadingDigit(s, q, i - 1, radix);
      var w := Val(s, q, i - 1, radix);
      var d := DigitValue(s[q]);
      var p := Itoa.Pow(radix, i - q - 2);
      assert Itoa.Pow(radix, i - q - 1) == radix * p;
      MulMono(d * p, w, radix);
      Assoc(d, p, radix);
    }
  }

  lemma Assoc(a: int, b: int, c: int)
    ensures (a * b) * c == a * (c * b)
  {
  }

  /** The bytes of " 30 -40" and its terminator, the tail of the string
      "10 200000000000000000000000000000 30 -40" read field by field. */
  function Tail(): seq<int>
  {
    [32, 51, 48, 32, 45, 52, 48, 0]
  }

  /** First field: 10, ending at offset 2. */
  lemma ExampleFirst(s: seq<int>)
    requires s == [49, 48, 32, 50] + seq(29, _ => 48) + Tail()
    ensures IsCString(s) && Parse(s, 10) == Parsed(10, Some(2))
  {
    assert |s| == 41 && s[0] == 49 && s[1] == 48 && s[2] == 32;
    assert forall k :: 0 <= k < 40 ==> s[k] != 0 && 0 <= s[k] < 256;
    assert s[40] == 0;
    LenUnique(s, 40);
    SpaceRunToEnd(s, 0, 0);
    assert ReadHeader(s, 10) == Header(false, 0, 10);
    DigitsRunToEnd(s, 0, 2, 10);
    assert Val(s, 0, 2, 10) == 10;
  }

  /** Second field (from offset 2): thirty digits overflow, so ULONG_MAX, and
      all of them are consumed (offset 31, i.e. 33 in the whole string). */
  lemma ExampleOverflow(s: seq<int>)
    requires s == [32, 50] + seq(29, _ => 48) + Tail()
    ensures IsCString(s) && Parse(s, 10) == Parsed(ULONG_MAX, Some(31))
  {
    OverflowLayout(s);
    assert ReadHeader(s, 10) == Header(false, 1, 10) by {
      SpaceRunToEnd(s, 0, 1);
    }
    assert DigitsEnd(s, 1, 10) == 31 by {
      DigitsRunToEnd(s, 1, 31, 10);
    }
    OverflowValue(s);
  }

  lemma OverflowLayout(s: seq<int>)
    requires s == [32, 50] + seq(29, _ => 48) + Tail()
    ensures IsCString(s) && Len(s) == 38 && s[0] == 32 && s[1] == 50 && s[31] == 32
    ensures forall k :: 2 <= k < 31 ==> s[k] == 48
  {
    assert forall k :: 0 <= k < 38 ==> s[k] != 0 && 0 <= s[k] < 256;
    assert s[38] == 0;
    LenUnique(s, 38);
  }

  lemma OverflowValue(s: seq<int>)
    requires 31 <= |s| && s[1] == 50 && forall k :: 2 <= k < 31 ==> s[k] == 48
    ensures Val(s, 1, 31, 10) > ULONG_MAX
  {
    LeadingDigit(s, 1, 31, 10);
    assert DigitValue(s[1]) == 2;
    TwoTimesTenPow29();
  }

  lemma TwoTimesTenPow29()
    ensures 2 * Itoa.Pow(10, 29) > ULONG_MAX
  {
    Itoa.TenPow20();
    Itoa.PowAdd(10, 20, 9);
    var p20, p9 := Itoa.Pow(10, 20), Itoa.Pow(10, 9);
    Itoa.MulMonotone(p20, 1, p9);
  }

  /** Third field (from offset 33): 30, ending 3 further on. */
  lemma ExampleThird(s: seq<int>)
    requires s == Tail()
    ensures IsCString(s) && Parse(s, 10) == Parsed(30, Some(3))
  {
    LenUnique(s, 7);
    SpaceRunToEnd(s, 0, 1);
    assert ReadHeader(s, 10) == Header(false, 1, 10);
    DigitsRunToEnd(s, 1, 3, 10);
    assert Val(s, 1, 3, 10) == 30;
  }

  /** Last field (from offset 36): "-40" wraps to 2^64 - 40. */
  lemma ExampleNegative(s: seq<int>)
    requires s == Tail()[3..]
    ensures IsCString(s) && Parse(s, 10) == Parsed(U64_LIMIT - 40, Some(4))
  {
    assert IsCString(s);
    LenUnique(s, 4);
    SpaceRunToEnd(s, 0, 1);
    assert ReadHeader(s, 10) == Header(true, 2, 10);
    DigitsRunToEnd(s, 2, 4, 10);
    assert Val(s, 2, 4, 10) == 40;
  }

  /** Base 0 with "0x": hexadecimal, either case of letter. */
  lemma ExampleHex(s: seq<int>)
    requires s == Lit("0xAA123")
    ensures IsCString(s) && Parse(s, 0) == Parsed(0xAA123, Some(7))
  {
    assert IsCString(s);
    LenUnique(s, 7);
    SpaceRunToEnd(s, 0, 0);
    assert ReadHeader(s, 0) == Header(false, 2, 16);
    DigitsRunToEnd(s, 2, 7, 16);
    assert Val(s, 2, 4, 16) == 0xAA;
    assert Val(s, 2, 7, 16) == 0xAA123;
  }

  lemma ExampleHexZero(s: seq<int>)
    requires s == Lit("0X00")
    ensures IsCString(s) && Parse(s, 0) == Parsed(0, Some(4))
  {
    assert IsCString(s);
    LenUnique(s, 4);
    SpaceRunToEnd(s, 0, 0);
    assert ReadHeader(s, 0) == Header(false, 2, 16);
    DigitsRunToEnd(s, 2, 4, 16);
  }

  lemma ExampleNegativeHex(s: seq<int>)
    requires s == Lit("-0x123456F")
    ensures IsCString(s) && Parse(s, 0) == Parsed(U64_LIMIT - 0x123456F, Some(10))
  {
    assert IsCString(s);
    LenUnique(s, 10);
    SpaceRunToEnd(s, 0, 0);
    assert ReadHeader(s, 0) == Header(true, 3, 16);
    DigitsRunToEnd(s, 3, 10, 16);
    assert Val(s, 3, 6, 16) == 0x123;
    assert Val(s, 3, 10, 16) == 0x123456F;
  }

  /** No digit: 0, and `*endptr` is null rather than `nptr`. */
  lemma ExampleNoDigits(s: seq<int>)
    requires s == Lit("  +x")
    ensures IsCString(s) && Parse(s, 10) == Parsed(0, None)
  {
    assert IsCString(s);
    LenUnique(s, 4);
    SpaceRunToEnd(s, 0, 2);
  }
}
