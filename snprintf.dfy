/** `vsnprintf`: format into a bounded buffer. Supported conversions are
    %d %i %u %x %X %c %s %% with the qualifiers l, ll and z; anything else
    after a '%' is dropped. Characters that do not fit are counted but not
    stored, and the terminator is written only when there is room for it. */
module Snprintf {
  import opened CStr
  import Itoa

  /** One variadic argument: an integer of the type the conversion reads, or
      a pointer to a C string. */
  datatype Arg = Int(v: int) | Str(s: seq<int>)

  /** What the format produces: all of its text, or the text produced before
      an unsupported qualifier made the call return -1, or nothing defined
      because the arguments do not match the conversions. */
  datatype Outcome = Text(out: seq<int>) | Unsupported(partial: seq<int>) | BadArgs

  /** The `is_escape`, `is_long` and `is_size_t` variables. */
  datatype Flags = Flags(escape: bool, long: nat, sizeT: bool)

  /** The effect of one format byte: output, new flags and the number of
      arguments consumed; or return -1; or an argument mismatch. */
  datatype Step = Emit(out: seq<int>, next: Flags, used: nat) | Stop | Bad

  const MAXIMUM_NUMBER_LENGTH: nat := 21
  const INT_MIN: int := -0x8000_0000
  const INT_MAX: int := 0x7fff_ffff
  const UINT_LIMIT: nat := 0x1_0000_0000

  /** 'a'..'z' to 'A'..'Z'; every other byte unchanged. */
  function Upcase(c: int): int
  {
    if 97 <= c <= 122 then c - 97 + 65 else c
  }

  function Upcased(s: seq<int>): (r: seq<int>)
    ensures |r| == |s|
  {
    seq(|s|, j requires 0 <= j < |s| => Upcase(s[j]))
  }

  function Shown(s: seq<int>, upper: bool): seq<int>
  {
    if upper then Upcased(s) else s
  }

  /** Signed decimal, as `itoa` renders it. */
  function Signed(v: int): seq<int>
  {
    if v < 0 then [45] + Itoa.Digits(-v, 10) else Itoa.Digits(v, 10)
  }

  /** A byte of the format after a '%' (or after a qualifier). */
  function Convert(c: int, fl: Flags, args: seq<Arg>, k: nat): Step
  {
    var done := Flags(false, fl.long, fl.sizeT);
    if c == 'z' as int then
      if fl.long > 0 || fl.sizeT then Stop else Emit([], Flags(true, fl.long, true), 0)
    else if c == 'l' as int then
      if fl.long + 1 >= 3 then Stop else Emit([], Flags(true, fl.long + 1, fl.sizeT), 0)
    else if c == 'u' as int || c == 'x' as int || c == 'X' as int then
      // size_t, unsigned long long and unsigned long are read as 64-bit,
      // unsigned int as 32-bit
      var limit := if fl.sizeT || fl.long > 0 then Itoa.U64_LIMIT else UINT_LIMIT;
      if k < |args| && args[k].Int? && 0 <= args[k].v < limit then
        Emit(Shown(Itoa.Digits(args[k].v, if c == 'u' as int then 10 else 16), c == 'X' as int), done, 1)
      else Bad
    else if c == 'd' as int || c == 'i' as int then
      // the z qualifier is not consulted here
      var lo := if fl.long > 0 then Itoa.I64_MIN else INT_MIN;
      var hi := if fl.long > 0 then Itoa.I64_MAX else INT_MAX;
      if k < |args| && args[k].Int? && lo <= args[k].v <= hi then
        Emit(Signed(args[k].v), done, 1)
      else Bad
    else if c == 'c' as int then
      if k < |args| && args[k].Int? && INT_MIN <= args[k].v <= INT_MAX then
        Emit([args[k].v % 256], done, 1)
      else Bad
    else if c == 's' as int then
      if k < |args| && args[k].Str? && IsCString(args[k].s) then
        Emit(Content(args[k].s), done, 1)
      else Bad
    else if c == '%' as int then Emit([37], done, 0)
    else Emit([], done, 0)
  }

  function StepAt(c: int, fl: Flags, args: seq<Arg>, k: nat): Step
  {
    if fl.escape then Convert(c, fl, args, k)
    else if c == '%' as int then Emit([], Flags(true, 0, false), 0)
    else Emit([c], fl, 0)
  }

  function Prepend(out: seq<int>, o: Outcome): Outcome
  {
    match o
    case Text(rest) => Text(out + rest)
    case Unsupported(rest) => Unsupported(out + rest)
    case BadArgs => BadArgs
  }

  /** Reference definition: the outcome of the format from byte i on. */
  function Run(fmt: seq<int>, i: nat, fl: Flags, args: seq<Arg>, k: nat): Outcome
    requires IsCString(fmt) && i <= Len(fmt)
    decreases Len(fmt) - i
  {
    if fmt[i] == 0 then Text([])
    else
      match StepAt(fmt[i], fl, args, k)
      case Stop => Unsupported([])
      case Bad => BadArgs
      case Emit(out, next, used) => Prepend(out, Run(fmt, i + 1, next, args, k + used))
  }

  function Format(fmt: seq<int>, args: seq<Arg>): Outcome
    requires IsCString(fmt)
  {
    Run(fmt, 0, Flags(false, 0, false), args, 0)
  }

  /** `buf` with t stored from offset `at`, except at indices >= size. */
  function PutAt(buf: seq<int>, size: nat, at: nat, t: seq<int>): (r: seq<int>)
    ensures |r| == |buf|
  {
    seq(|buf|, j requires 0 <= j < |buf| => if at <= j < size && j - at < |t| then t[j - at] else buf[j])
  }

  /** The buffer once the call has returned. */
  function Stored(buf: seq<int>, size: nat, o: Outcome): seq<int>
    requires !o.BadArgs?
  {
    match o
    case Text(out) => PutAt(buf, size, 0, out + [0])
    case Unsupported(p) => PutAt(buf, size, 0, p)
  }

  /** `(int) written`, taken as two's-complement wrap-around. */
  function ToCInt(n: nat): int
  {
    var m := n % UINT_LIMIT;
    if m <= INT_MAX then m else m - UINT_LIMIT
  }

  function Returned(o: Outcome): int
    requires !o.BadArgs?
  {
    match o
    case Text(out) => ToCInt(|out|)
    case Unsupported(_) => -1
  }

  /** `write_output`: store c at `written` if it fits, and count it anyway. */
  method WriteOutput(str: array<int>, size: nat, written: nat, c: int) returns (w: nat)
    requires size <= str.Length
    modifies str
    ensures w == written + 1
    ensures str[..] == PutAt(old(str[..]), size, written, [c])
  {
    if written < size {
      str[written] := c;
      w := written + 1;
    } else {
      w := written + 1;
    }
    assert str[..] == PutAt(old(str[..]), size, written, [c]);
  }

  /** The loops `for (p = s; *p != '\0'; p++) write_output(...)`, with or
      without `upcase`. */
  method WriteCString(str: array<int>, size: nat, written: nat, s: seq<int>, upper: bool)
      returns (w: nat)
    requires size <= str.Length && 0 in s
    modifies str
    ensures w == written + Len(s)
    ensures str[..] == PutAt(old(str[..]), size, written, Shown(Content(s), upper))
  {
    ghost var orig := str[..];
    ghost var t := Shown(Content(s), upper);
    w := written;
    var p := 0;
    while s[p] != 0
      invariant p <= Len(s) && w == written + p
      invariant str[..] == PutAt(orig, size, written, t[..p])
      decreases Len(s) - p
    {
      var c := if upper then Upcase(s[p]) else s[p];
      assert c == t[p];
      ghost var before := str[..];
      w := WriteOutput(str, size, w, c);
      PutAtAppend(orig, size, written, t[..p], [c]);
      assert t[..p] + [c] == t[..p + 1];
      p := p + 1;
    }
    assert t[..p] == t;
  }

  lemma PutAtAppend(buf: seq<int>, size: nat, at: nat, a: seq<int>, b: seq<int>)
    ensures PutAt(PutAt(buf, size, at, a), size, at + |a|, b) == PutAt(buf, size, at, a + b)
  {
    var l := PutAt(PutAt(buf, size, at, a), size, at + |a|, b);
    var r := PutAt(buf, size, at, a + b);
    assert forall j :: 0 <= j < |buf| ==> l[j] == r[j];
  }

  /** `utoa` into a fresh 21-byte buffer, then copied out. */
  method RenderUnsigned(str: array<int>, size: nat, written: nat, v: nat, radix: nat, upper: bool)
      returns (w: nat)
    requires size <= str.Length && v < Itoa.U64_LIMIT && (radix == 10 || radix == 16)
    modifies str
    ensures w == written + |Itoa.Digits(v, radix)|
    ensures str[..] == PutAt(old(str[..]), size, written, Shown(Itoa.Digits(v, radix), upper))
  {
    var s := new int[MAXIMUM_NUMBER_LENGTH](_ => 0);
    ghost var zeros := s[..];
    var _ := Itoa.Utoa(v, s, 0, MAXIMUM_NUMBER_LENGTH, radix);
    UnsignedFits(v, radix, zeros);
    w := WriteCString(str, size, written, s[..], upper);
  }

  /** `itoa` into a fresh 21-byte buffer, then copied out. */
  method RenderSigned(str: array<int>, size: nat, written: nat, v: int) returns (w: nat)
    requires size <= str.Length && Itoa.I64_MIN <= v <= Itoa.I64_MAX
    modifies str
    ensures w == written + |Signed(v)|
    ensures str[..] == PutAt(old(str[..]), size, written, Signed(v))
  {
    var s := new int[MAXIMUM_NUMBER_LENGTH](_ => 0);
    ghost var zeros := s[..];
    var _ := Itoa.Itoa(v, s, 0, MAXIMUM_NUMBER_LENGTH, 10);
    assert s[..] == Itoa.Overwrite(zeros, 0, ItoaWritten(v));
    SignedFits(v, zeros);
    w := WriteCString(str, size, written, s[..], false);
  }

  /** The byte after a '%' (or after a qualifier): the `is_escape` branch of
      the loop in `vsnprintf`. */
  method Escaped(str: array<int>, size: nat, written: nat, c: int, fl: Flags, args: seq<Arg>, k: nat)
      returns (w: nat, next: Flags, used: nat, stop: bool)
    requires size <= str.Length && !Convert(c, fl, args, k).Bad?
    modifies str
    ensures stop <==> Convert(c, fl, args, k).Stop?
    ensures stop ==> str[..] == old(str[..])
    ensures !stop ==> var e := Convert(c, fl, args, k);
      w == written + |e.out| && next == e.next && used == e.used &&
      str[..] == PutAt(old(str[..]), size, written, e.out)
  {
    w, next, used, stop := written, Flags(false, fl.long, fl.sizeT), 0, false;
    if c == 'z' as int {
      if fl.long > 0 || fl.sizeT {
        stop := true;
        return;
      }
      next := Flags(true, fl.long, true);
    } else if c == 'l' as int {
      var isLong := fl.long + 1;
      if isLong >= 3 {
        stop := true;
        return;
      }
      next := Flags(true, isLong, fl.sizeT);
    } else if c == 'u' as int || c == 'x' as int || c == 'X' as int {
      w := RenderUnsigned(str, size, written, args[k].v, if c == 'u' as int then 10 else 16, c == 'X' as int);
      used := 1;
    } else if c == 'd' as int || c == 'i' as int {
      w := RenderSigned(str, size, written, args[k].v);
      used := 1;
    } else if c == 'c' as int {
      w := WriteOutput(str, size, written, args[k].v % 256);
      used := 1;
    } else if c == 's' as int {
      w := WriteCString(str, size, written, args[k].s, false);
      used := 1;
    } else if c == '%' as int {
      w := WriteOutput(str, size, written, 37);
    } else {
      assert str[..] == PutAt(old(str[..]), size, written, []);
    }
  }

  /** One pass of the loop in `vsnprintf`, on the format byte c. */
  method Process(str: array<int>, size: nat, written: nat, c: int, fl: Flags, args: seq<Arg>, k: nat)
      returns (w: nat, next: Flags, used: nat, stop: bool)
    requires size <= str.Length && !StepAt(c, fl, args, k).Bad?
    modifies str
    ensures stop <==> StepAt(c, fl, args, k).Stop?
    ensures stop ==> str[..] == old(str[..])
    ensures !stop ==> var e := StepAt(c, fl, args, k);
      w == written + |e.out| && next == e.next && used == e.used &&
      str[..] == PutAt(old(str[..]), size, written, e.out)
  {
    if fl.escape {
      w, next, used, stop := Escaped(str, size, written, c, fl, args, k);
    } else if c == '%' as int {
      w, next, used, stop := written, Flags(true, 0, false), 0, false;
      assert str[..] == PutAt(old(str[..]), size, written, []);
    } else {
      w := WriteOutput(str, size, written, c);
      next, used, stop := fl, 0, false;
    }
  }

  method Vsnprintf(str: array<int>, size: nat, fmt: seq<int>, args: seq<Arg>) returns (r: int)
    requires IsCString(fmt) && size <= str.Length && !Format(fmt, args).BadArgs?
    modifies str
    ensures r == Returned(Format(fmt, args))
    ensures str[..] == Stored(old(str[..]), size, Format(fmt, args))
  {
    ghost var orig := str[..];
    ghost var acc: seq<int> := [];
    var written: nat := 0;
    var fl := Flags(false, 0, false);
    var k: nat := 0;
    var i: nat := 0;
    while fmt[i] != 0
      invariant i <= Len(fmt) && written == |acc|
      invariant str[..] == PutAt(orig, size, 0, acc)
      invariant Format(fmt, args) == Prepend(acc, Run(fmt, i, fl, args, k))
      decreases Len(fmt) - i
    {
      ghost var step := StepAt(fmt[i], fl, args, k);
      RunUnfold(fmt, i, fl, args, k);
      var next, used, stop;
      written, next, used, stop := Process(str, size, written, fmt[i], fl, args, k);
      if stop {
        return -1;
      }
      PutAtAppend(orig, size, 0, acc, step.out);
      PrependAppend(acc, step.out, Run(fmt, i + 1, next, args, k + used));
      acc := acc + step.out;
      fl, k := next, k + used;
      i := i + 1;
    }
    if written < size {
      str[written] := 0;
    }
    PutAtAppend(orig, size, 0, acc, [0]);
    r := ToCInt(written);
  }

  // Properties of the specification.

  /** One step of the reference definition, on a byte that is not the NUL. */
  lemma RunUnfold(fmt: seq<int>, i: nat, fl: Flags, args: seq<Arg>, k: nat)
    requires IsCString(fmt) && i < Len(fmt)
    ensures var st := StepAt(fmt[i], fl, args, k);
      (st.Stop? ==> Run(fmt, i, fl, args, k) == Unsupported([])) &&
      (st.Bad? ==> Run(fmt, i, fl, args, k) == BadArgs) &&
      (st.Emit? ==> Run(fmt, i, fl, args, k) == Prepend(st.out, Run(fmt, i + 1, st.next, args, k + st.used)))
  {
  }

  lemma PrependAppend(a: seq<int>, b: seq<int>, o: Outcome)
    ensures Prepend(a, Prepend(b, o)) == Prepend(a + b, o)
  {
    match o
    case Text(rest) => assert a + (b + rest) == (a + b) + rest;
    case Unsupported(rest) => assert a + (b + rest) == (a + b) + rest;
    case BadArgs =>
  }

  /** A 64-bit value has at most 20 decimal or 16 hexadecimal digits. */
  lemma UnsignedDigits(v: nat, radix: nat)
    requires v < Itoa.U64_LIMIT && (radix == 10 || radix == 16)
    ensures |Itoa.Digits(v, radix)| <= 20
  {
    if radix == 10 {
      Itoa.DecimalFitsIn20(v);
    } else {
      HexFitsIn16(v);
    }
  }

  lemma HexFitsIn16(v: nat)
    requires v < Itoa.U64_LIMIT
    ensures |Itoa.Digits(v, 16)| <= 16
  {
    assert Itoa.Pow(16, 4) == 0x1_0000;
    assert Itoa.Pow(16, 8) == 0x1_0000_0000 by {
      assert Itoa.Pow(16, 8) == 0x1_0000 * Itoa.Pow(16, 4) by { Itoa.PowAdd(16, 4, 4); }
    }
    assert Itoa.Pow(16, 16) == Itoa.U64_LIMIT by { Itoa.PowAdd(16, 8, 8); }
    Itoa.DigitCount(v, 16, 16);
  }

  /** The magnitude of a 64-bit signed value has at most 19 decimal digits, so
      with a sign and the NUL it fits the 21-byte buffer. */
  lemma SignedDigits(v: int)
    requires Itoa.I64_MIN <= v <= Itoa.I64_MAX
    ensures |Signed(v)| <= 20
    ensures v < 0 ==> |Itoa.Digits(-v, 10)| <= 19
  {
    var m: nat := if v < 0 then -v else v;
    assert Itoa.Pow(10, 19) == 10_000_000_000_000_000_000 by {
      Itoa.PowAdd(10, 10, 9);
      assert Itoa.Pow(10, 9) == 1_000_000_000;
      assert Itoa.Pow(10, 10) == 10_000_000_000;
    }
    Itoa.DigitCount(m, 10, 19);
  }

  /** After `utoa` into 21 bytes the buffer is a C string holding the digits. */
  lemma UnsignedFits(v: nat, radix: nat, buf: seq<int>)
    requires v < Itoa.U64_LIMIT && (radix == 10 || radix == 16) && |buf| == MAXIMUM_NUMBER_LENGTH
    ensures var s := Itoa.Overwrite(buf, 0, Itoa.UtoaWritten(v, MAXIMUM_NUMBER_LENGTH, radix));
      0 in s && Content(s) == Itoa.Digits(v, radix)
  {
    UnsignedDigits(v, radix);
    Itoa.SuccessIsCString(v, MAXIMUM_NUMBER_LENGTH, radix);
    var w := Itoa.UtoaWritten(v, MAXIMUM_NUMBER_LENGTH, radix);
    PrefixString(Itoa.Overwrite(buf, 0, w), w);
  }

  /** The bytes `itoa` stores for v given 21 slots. */
  function ItoaWritten(v: int): seq<int>
  {
    var m := if v < 0 then -v else v;
    if v < 0 then [45] + Itoa.UtoaWritten(m, MAXIMUM_NUMBER_LENGTH - 1, 10)
    else Itoa.UtoaWritten(m, MAXIMUM_NUMBER_LENGTH, 10)
  }

  /** A '-' in front of a C string is a C string whose content gains the '-'. */
  lemma MinusPrefix(u: seq<int>)
    requires 0 in u
    ensures 0 in [45] + u && Content([45] + u) == [45] + Content(u)
  {
    var w := [45] + u;
    assert w[1..] == u;
    assert w[Len(u) + 1] == 0;
  }

  /** The digits `utoa` leaves in `sLen` slots when they fit with their NUL. */
  lemma DecimalWritten(m: nat, sLen: nat)
    requires |Itoa.Digits(m, 10)| < sLen
    ensures |Itoa.UtoaWritten(m, sLen, 10)| <= sLen
    ensures 0 in Itoa.UtoaWritten(m, sLen, 10)
    ensures Content(Itoa.UtoaWritten(m, sLen, 10)) == Itoa.Digits(m, 10)
  {
    Itoa.SuccessIsCString(m, sLen, 10);
  }

  /** What `itoa` stores in 21 slots is the signed rendering and a NUL. */
  lemma ItoaWrittenIsSigned(v: int)
    requires Itoa.I64_MIN <= v <= Itoa.I64_MAX
    ensures |ItoaWritten(v)| <= MAXIMUM_NUMBER_LENGTH
    ensures 0 in ItoaWritten(v) && Content(ItoaWritten(v)) == Signed(v)
  {
    SignedDigits(v);
    if v < 0 {
      DecimalWritten(-v, MAXIMUM_NUMBER_LENGTH - 1);
      MinusPrefix(Itoa.UtoaWritten(-v, MAXIMUM_NUMBER_LENGTH - 1, 10));
    } else {
      DecimalWritten(v, MAXIMUM_NUMBER_LENGTH);
    }
  }

  /** After `itoa` into 21 bytes the buffer is a C string holding the signed
      rendering. */
  lemma SignedFits(v: int, buf: seq<int>)
    requires Itoa.I64_MIN <= v <= Itoa.I64_MAX && |buf| == MAXIMUM_NUMBER_LENGTH
    ensures |ItoaWritten(v)| <= MAXIMUM_NUMBER_LENGTH
    ensures var s := Itoa.Overwrite(buf, 0, ItoaWritten(v)); 0 in s && Content(s) == Signed(v)
  {
    ItoaWrittenIsSigned(v);
    PrefixString(Itoa.Overwrite(buf, 0, ItoaWritten(v)), ItoaWritten(v));
  }

  /** `upcase` turns exactly the lowercase ASCII letters into uppercase, and
      lowercasing undoes it. */
  lemma UpcaseLetters(c: int)
    ensures 97 <= c <= 122 ==> 65 <= Upcase(c) <= 90 && ToLower(Upcase(c)) == c
    ensures !(97 <= c <= 122) ==> Upcase(c) == c
  {
  }

  /** %X shows the %x digits with 'a'..'f' replaced by 'A'..'F'. */
  lemma UpperHex(v: nat)
    ensures var r := Upcased(Itoa.Digits(v, 16));
      forall j :: 0 <= j < |r| ==> (48 <= r[j] <= 57 || 65 <= r[j] <= 70) && ToLower(r[j]) == Itoa.Digits(v, 16)[j]
  {
    Itoa.DigitsAreLowercase(v, 16);
    var ds := Itoa.Digits(v, 16);
    forall j | 0 <= j < |ds|
      ensures (48 <= Upcased(ds)[j] <= 57 || 65 <= Upcased(ds)[j] <= 70) && ToLower(Upcased(ds)[j]) == ds[j]
    {
      assert ds[j] in ds;
    }
  }

  /** What the buffer holds afterwards: the output at indices below `size`,
      a NUL right after complete output that left room for it, and the old
      bytes everywhere else. */
  lemma StoredShape(buf: seq<int>, size: nat, o: Outcome)
    requires !o.BadArgs? && size <= |buf|
    ensures var s := Stored(buf, size, o);
      |s| == |buf| && forall j :: size <= j < |buf| ==> s[j] == buf[j]
    ensures o.Text? ==> var s := Stored(buf, size, o);
      (forall j :: 0 <= j < size && j < |o.out| ==> s[j] == o.out[j]) &&
      (|o.out| < size ==> s[|o.out|] == 0) &&
      (forall j :: |o.out| < j < |buf| ==> s[j] == buf[j])
    ensures o.Unsupported? ==> var s := Stored(buf, size, o);
      (forall j :: 0 <= j < size && j < |o.partial| ==> s[j] == o.partial[j]) &&
      (forall j :: |o.partial| <= j < |buf| ==> s[j] == buf[j])
  {
  }

  /** From byte i on, a format without '%' is copied as it stands. */
  lemma {:induction false} LiteralRun(fmt: seq<int>, i: nat, args: seq<Arg>, k: nat)
    requires IsCString(fmt) && i <= Len(fmt)
    requires forall j :: i <= j < Len(fmt) ==> fmt[j] != 37
    ensures Run(fmt, i, Flags(false, 0, false), args, k) == Text(fmt[i..Len(fmt)])
    decreases Len(fmt) - i
  {
    if fmt[i] != 0 {
      LiteralRun(fmt, i + 1, args, k);
      assert fmt[i..Len(fmt)] == [fmt[i]] + fmt[i + 1..Len(fmt)];
    }
  }

  /** A format without '%' produces its own text and reads no argument. */
  lemma NoPercentIsLiteral(fmt: seq<int>, args: seq<Arg>)
    requires IsCString(fmt) && 37 !in Content(fmt)
    ensures Format(fmt, args) == Text(Content(fmt))
  {
    assert forall j :: 0 <= j < Len(fmt) ==> fmt[j] == Content(fmt)[j];
    LiteralRun(fmt, 0, args, 0);
  }

  lemma ExamplePercent()
    ensures Format([37, 37, 0], []) == Text([37])
  {
  }

  /** An unknown conversion drops itself and its '%', and reads no argument. */
  lemma ExampleUnknown()
    ensures Format([97, 37, 113, 98, 0], []) == Text([97, 98])
  {
  }

  /** "x%lllu": the third 'l' stops the call after "x". */
  lemma ExampleTripleLong()
    ensures Format([120, 37, 108, 108, 108, 117, 0], [Int(1)]) == Unsupported([120])
  {
  }

  /** "%lzu" is refused. */
  lemma ExampleLongThenSize()
    ensures Format([37, 108, 122, 117, 0], [Int(5)]) == Unsupported([])
  {
  }

  /** "%zlu" is read as size_t: any 64-bit value is shown in decimal. */
  lemma ExampleSizeThenLong(fmt: seq<int>, v: nat)
    requires fmt == [37, 122, 108, 117, 0] && v < Itoa.U64_LIMIT
    ensures IsCString(fmt) && Format(fmt, [Int(v)]) == Text(Itoa.Digits(v, 10))
  {
    var args := [Int(v)];
    LenUnique(fmt, 4);
    var plain, esc := Flags(false, 0, false), Flags(true, 0, false);
    var size, sizeLong := Flags(true, 0, true), Flags(true, 1, true);
    var ds := Itoa.Digits(v, 10);
    assert Run(fmt, 4, Flags(false, 1, true), args, 1) == Text([]);
    assert Run(fmt, 3, sizeLong, args, 0) == Text(ds) by { RunUnfold(fmt, 3, sizeLong, args, 0); }
    assert Run(fmt, 2, size, args, 0) == Text(ds) by { RunUnfold(fmt, 2, size, args, 0); }
    assert Run(fmt, 1, esc, args, 0) == Text(ds) by { RunUnfold(fmt, 1, esc, args, 0); }
    assert Run(fmt, 0, plain, args, 0) == Text(ds) by { RunUnfold(fmt, 0, plain, args, 0); }
  }

  /** "%c" keeps the low byte of its argument. */
  lemma ExampleChar()
    ensures Format([37, 99, 0], [Int(65 + 256)]) == Text([65])
  {
  }

  /** "%s, %s!" copies both strings around the literal text. */
  lemma TwoStrings(fmt: seq<int>, a: seq<int>, b: seq<int>)
    requires fmt == [37, 115, 44, 32, 37, 115, 33, 0] && IsCString(a) && IsCString(b)
    ensures Format(fmt, [Str(a), Str(b)]) == Text(Content(a) + [44, 32] + Content(b) + [33])
  {
    var args := [Str(a), Str(b)];
    var plain := Flags(false, 0, false);
    var esc := Flags(true, 0, false);
    LenUnique(fmt, 7);
    var t6 := [33];
    assert Run(fmt, 6, plain, args, 2) == Text(t6) by { RunUnfold(fmt, 6, plain, args, 2); }
    var t5 := Content(b) + t6;
    assert Run(fmt, 5, esc, args, 1) == Text(t5) by { RunUnfold(fmt, 5, esc, args, 1); }
    assert Run(fmt, 4, plain, args, 1) == Text(t5) by { RunUnfold(fmt, 4, plain, args, 1); }
    var t3 := [32] + t5;
    assert Run(fmt, 3, plain, args, 1) == Text(t3) by { RunUnfold(fmt, 3, plain, args, 1); }
    var t2 := [44] + t3;
    assert Run(fmt, 2, plain, args, 1) == Text(t2) by { RunUnfold(fmt, 2, plain, args, 1); }
    var t1 := Content(a) + t2;
    assert Run(fmt, 1, esc, args, 0) == Text(t1) by { RunUnfold(fmt, 1, esc, args, 0); }
    assert Run(fmt, 0, plain, args, 0) == Text(t1) by { RunUnfold(fmt, 0, plain, args, 0); }
    Regroup(Content(a), Content(b));
  }

  lemma Regroup(x: seq<int>, y: seq<int>)
    ensures x + ([44] + ([32] + (y + [33]))) == x + [44, 32] + y + [33]
  {
    var l, r := x + ([44] + ([32] + (y + [33]))), x + [44, 32] + y + [33];
    assert |l| == |r|;
    forall j | 0 <= j < |l| ensures l[j] == r[j] {
      if j < |x| {
      } else if j < |x| + 2 {
      } else if j < |x| + 2 + |y| {
        assert l[j] == y[j - |x| - 2];
      }
    }
  }

  lemma ExampleStrings(fmt: seq<int>, hello: seq<int>, world: seq<int>)
    requires fmt == [37, 115, 44, 32, 37, 115, 33, 0]
    requires hello == [72, 101, 108, 108, 111, 0] && world == [87, 111, 114, 108, 100, 0]
    ensures Format(fmt, [Str(hello), Str(world)])
      == Text([72, 101, 108, 108, 111, 44, 32, 87, 111, 114, 108, 100, 33])
  {
    LenUnique(hello, 5);
    LenUnique(world, 5);
    assert Content(hello) == [72, 101, 108, 108, 111];
    assert Content(world) == [87, 111, 114, 108, 100];
    TwoStrings(fmt, hello, world);
  }

  /** "%X" of 0xDEADBEEF. */
  lemma ExampleUpperHex()
    ensures Format([37, 88, 0], [Int(0xDEADBEEF)]) == Text([68, 69, 65, 68, 66, 69, 69, 70])
  {
    Itoa.ExampleHex();
  }

  /** "%d" and "%lld" of -100. */
  lemma ExampleNegative()
    ensures Format([37, 100, 0], [Int(-100)]) == Text([45, 49, 48, 48])
    ensures Format([37, 108, 108, 100, 0], [Int(-100)]) == Text([45, 49, 48, 48])
  {
    assert Itoa.Digits(100, 10) == [49, 48, 48];
  }

  /** "hello" into 3 bytes: "hel" is stored with no NUL, and 5 is returned. */
  lemma ExampleTruncated()
    ensures Format(Lit("hello"), []) == Text([104, 101, 108, 108, 111])
    ensures Stored([9, 9, 9, 9], 3, Format(Lit("hello"), [])) == [104, 101, 108, 9]
    ensures Returned(Format(Lit("hello"), [])) == 5
  {
    LenUnique(Lit("hello"), 5);
    NoPercentIsLiteral(Lit("hello"), []);
  }
}
