/** `rand_r`: the linear congruential generator of the example in section
    7.20.2.2 of ISO/IEC 9899:1999. Only bits 16 and up of each state are
    used. With a 16-bit `int` (or the `rand_max_i16` feature) one step gives
    15 bits; otherwise three steps give 11 + 10 + 10 bits. */
module RandR {

  /** `c_int::MAX` when `int` is 32 bits wide. */
  const RAND_MAX: int := 0x7fff_ffff

  /** The width of `c_ulong` on the target. */
  datatype Width = W32 | W64

  const TWO32: nat := 0x1_0000_0000

  function Modulus(w: Width): (m: nat)
    ensures m >= TWO32
  {
    if w == W32 then TWO32 else TWO32 * TWO32
  }

  function Pow2(k: nat): (p: nat)
    ensures p >= 1
  {
    if k == 0 then 1 else 2 * Pow2(k - 1)
  }

  /** `input.wrapping_mul(1103515245).wrapping_add(12345)` on `c_ulong`. */
  function Pump(input: nat, w: Width): (r: nat)
    ensures r < Modulus(w)
  {
    (input * 1103515245 + 12345) % Modulus(w)
  }

  /** `(state >> 16) & ((1 << bits) - 1)`. */
  function SelectTop(state: nat, bits: nat): (r: nat)
    ensures r < Pow2(bits)
  {
    (state / 0x1_0000) % Pow2(bits)
  }

  /** `top11 << 20 | top10 << 10 | top10`: the three fields occupy disjoint
      bits, so the `|` adds them. */
  lemma DisjointOr(x: bv32, y: bv32, z: bv32)
    requires x < 0x800 && y < 0x400 && z < 0x400
    ensures (x << 20) | (y << 10) | z == (x << 20) + (y << 10) + z
    ensures (x << 20) + (y << 10) + z < 0x8000_0000
  {
  }

  /** The pieces of the 31-bit result: 11 bits, then 10, then 10. */
  function Combine(a: nat, b: nat, c: nat): (r: nat)
    requires a < 0x800 && b < 0x400 && c < 0x400
    ensures r <= RAND_MAX
  {
    a * 0x10_0000 + b * 0x400 + c
  }

  lemma Pow2Values()
    ensures Pow2(10) == 0x400 && Pow2(11) == 0x800 && Pow2(15) == 0x8000
  {
    assert Pow2(5) == 32;
    assert Pow2(10) == 0x400;
  }

  /** `rand_r` on a seed of the given width: the result and the new `*seedp`. */
  method RandR(seed: nat, w: Width, shortInt: bool) returns (result: int, next: nat)
    requires seed < Modulus(w)
    ensures (result, next) == Reference(seed, w, shortInt)
  {
    next := seed;
    if shortInt {
      next := Pump(next, w);
      result := SelectTop(next, 15);
    } else {
      next := Pump(next, w);
      var a := SelectTop(next, 11);
      next := Pump(next, w);
      var b := SelectTop(next, 10);
      next := Pump(next, w);
      var c := SelectTop(next, 10);
      Pow2Values();
      result := Combine(a, b, c);
    }
  }

  /** Reference definition: the result and the state after the last pump. */
  function Reference(seed: nat, w: Width, shortInt: bool): (int, nat)
  {
    if shortInt then
      var s1 := Pump(seed, w);
      (SelectTop(s1, 15), s1)
    else
      var s1 := Pump(seed, w);
      var s2 := Pump(s1, w);
      var s3 := Pump(s2, w);
      (SelectTop(s1, 11) * 0x10_0000 + SelectTop(s2, 10) * 0x400 + SelectTop(s3, 10), s3)
  }

  /** The results lie in 0..RAND_MAX, below 2^15 on the short path, and the
      stored seed stays within the width. */
  lemma ResultRange(seed: nat, w: Width, shortInt: bool)
    ensures var (r, n) := Reference(seed, w, shortInt);
      0 <= r <= RAND_MAX && n < Modulus(w) && (shortInt ==> r < 0x8000)
  {
    if !shortInt {
      var s1 := Pump(seed, w);
      var s2 := Pump(s1, w);
      var s3 := Pump(s2, w);
      Pow2Values();
    } else {
      Pow2Values();
    }
  }

  /** The 31-bit path takes its three fields from three successive states. */
  lemma LongPathFields(seed: nat, w: Width)
    ensures var (r, n) := Reference(seed, w, false);
      var s1 := Pump(seed, w); var s2 := Pump(s1, w);
      r / 0x10_0000 == SelectTop(s1, 11) && (r / 0x400) % 0x400 == SelectTop(s2, 10)
      && r % 0x400 == SelectTop(Pump(s2, w), 10) && n == Pump(s2, w)
  {
    var s1 := Pump(seed, w);
    var s2 := Pump(s1, w);
    var s3 := Pump(s2, w);
    Pow2Values();
    Fields(SelectTop(s1, 11), SelectTop(s2, 10), SelectTop(s3, 10));
  }

  lemma Fields(a: nat, b: nat, c: nat)
    requires a < 0x800 && b < 0x400 && c < 0x400
    ensures (a * 0x10_0000 + b * 0x400 + c) / 0x10_0000 == a
    ensures ((a * 0x10_0000 + b * 0x400 + c) / 0x400) % 0x400 == b
    ensures (a * 0x10_0000 + b * 0x400 + c) % 0x400 == c
  {
    var hi := a * 0x400 + b;
    assert a * 0x10_0000 + b * 0x400 + c == hi * 0x400 + c;
    assert (hi * 0x400 + c) / 0x400 == hi;
    assert (hi * 0x400 + c) % 0x400 == c;
  }

  /** The low 32 bits of a pumped state depend only on the low 32 bits of
      the input, so the results do not depend on the width of `c_ulong`. */
  lemma WidthIrrelevant(seed: nat, shortInt: bool)
    ensures Reference(seed, W64, shortInt).0 == Reference(seed % TWO32, W32, shortInt).0
    ensures Reference(seed, W64, shortInt).1 % TWO32 == Reference(seed % TWO32, W32, shortInt).1
  {
    var s1 := Pump(seed, W64);
    var t1 := Pump(seed % TWO32, W32);
    LowBits(seed);
    var s2, t2 := Pump(s1, W64), Pump(t1, W32);
    LowBits(s1);
    LowBits(s2);
    TopFromLow(s1, 15);
    TopFromLow(s1, 11);
    TopFromLow(s2, 10);
    TopFromLow(Pump(s2, W64), 10);
  }

  /** Pumping on 64 bits and keeping the low 32 is pumping on 32 bits. */
  lemma LowBits(x: nat)
    ensures Pump(x, W64) % TWO32 == Pump(x % TWO32, W32)
  {
    var y := x * 1103515245 + 12345;
    var q := y / (TWO32 * TWO32);
    assert y == (q * TWO32) * TWO32 + y % (TWO32 * TWO32);
    Shift(y % (TWO32 * TWO32), q * TWO32, TWO32);
    var p := x / TWO32;
    assert y == (x % TWO32) * 1103515245 + 12345 + (p * 1103515245) * TWO32;
    Shift((x % TWO32) * 1103515245 + 12345, p * 1103515245, TWO32);
  }

  /** Adding a multiple of the modulus changes neither remainder nor, beyond
      the multiple, the quotient. */
  lemma Shift(a: nat, k: nat, m: nat)
    requires m >= 1
    ensures (a + k * m) % m == a % m && (a + k * m) / m == a / m + k
  {
    var r := a % m;
    assert a == (a / m) * m + r;
    assert a + k * m == (a / m + k) * m + r;
    UniqueDivision(a + k * m, a / m + k, r, m);
  }

  lemma UniqueDivision(x: nat, q: nat, r: nat, m: nat)
    requires m >= 1 && r < m && x == q * m + r
    ensures x / m == q && x % m == r
  {
    var q', r' := x / m, x % m;
    if q' < q {
      assert q * m == q' * m + (q - q') * m;
      Scale(q - q', m);
    } else if q' > q {
      assert q' * m == q * m + (q' - q) * m;
      Scale(q' - q, m);
    }
  }

  lemma Scale(k: nat, m: nat)
    requires k >= 1
    ensures k * m >= m
  {
    assert k * m == m + (k - 1) * m;
  }

  /** Bits from 16 + bits upward do not reach `select_top`. */
  lemma TopFromLow(x: nat, bits: nat)
    requires bits == 10 || bits == 11 || bits == 15
    ensures SelectTop(x, bits) == SelectTop(x % TWO32, bits)
  {
    Pow2Values();
    var K := if bits == 10 then 64 else if bits == 11 then 32 else 2;
    FieldFromLow(x, Pow2(bits), K);
  }

  /** A field of B bits taken at bit 16, when B divides 2^16. */
  lemma FieldFromLow(x: nat, B: nat, K: nat)
    requires B >= 1 && K * B == 0x1_0000
    ensures (x / 0x1_0000) % B == ((x % TWO32) / 0x1_0000) % B
  {
    var q := x / TWO32;
    assert x == x % TWO32 + (q * 0x1_0000) * 0x1_0000;
    Shift(x % TWO32, q * 0x1_0000, 0x1_0000);
    assert q * 0x1_0000 == (q * K) * B;
    Shift((x % TWO32) / 0x1_0000, q * K, B);
  }

  /** Seed 5 on the 31-bit path: results and stored seeds of three calls. */
  lemma ExampleLong()
    ensures Reference(5, W32, false) == (234104184, 695785320)
    ensures Reference(695785320, W32, false) == (1214203244, 3849114727)
    ensures Reference(3849114727, W32, false) == (1803669308, 4282185906)
  {
    LongFirst();
    LongSecond();
    LongThird();
  }

  lemma LongFirst()
    ensures Reference(5, W32, false) == (234104184, 695785320)
  {
    Pow2Values();
    assert Pump(5, W32) == 1222621274;
    assert Pump(1222621274, W32) == 2701728395;
    assert Pump(2701728395, W32) == 695785320;
  }

  lemma LongSecond()
    ensures Reference(695785320, W32, false) == (1214203244, 3849114727)
  {
    Pow2Values();
    assert Pump(695785320, W32) == 2089129857;
    assert Pump(2089129857, W32) == 2815492134;
    assert Pump(2815492134, W32) == 3849114727;
  }

  lemma LongThird()
    ensures Reference(3849114727, W32, false) == (1803669308, 4282185906)
  {
    Pow2Values();
    assert Pump(3849114727, W32) == 1186464276;
    assert Pump(1186464276, W32) == 3698535101;
    assert Pump(3698535101, W32) == 4282185906;
  }

  /** Seed 5 on the 15-bit path. */
  lemma ExampleShort()
    ensures Reference(5, W32, true) == (18655, 1222621274)
    ensures Reference(1222621274, W32, true) == (8457, 2701728395)
    ensures Reference(2701728395, W32, true) == (10616, 695785320)
  {
    Pow2Values();
  }
}
