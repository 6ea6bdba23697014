/** `rand`/`srand`: the additive-feedback generator of the GNU C library. A
    344-word table is seeded by the Park-Miller minimal standard generator
    (computed with Schrage's method) and then extended by a lagged sum; each
    output adds two earlier words, stores the sum, and drops its low bit. */
module Rand {

  /** `i32::MAX`, the Park-Miller modulus 2^31 - 1. */
  const M: nat := 0x7fff_ffff
  /** The range of a `u32` word. */
  const WORD: nat := 0x1_0000_0000
  const SIZE: nat := 344

  /** Seed 0 is replaced by 1. */
  function Seed(seed: nat): (s: nat)
    ensures s != 0 && (seed != 0 ==> s == seed)
  {
    if seed == 0 then 1 else seed
  }

  /** One Park-Miller step as the code computes it: Schrage's method, which
      stays within `i32`. */
  function Schrage(x: nat): int
  {
    var hi := x / 127773;
    var lo := x % 127773;
    var word := 16807 * lo - 2836 * hi;
    if word < 0 then word + M else word
  }

  /** Schrage's method computes `16807 * x mod (2^31 - 1)` for every `u32`
      word, and no intermediate value leaves the `i32` range. */
  lemma SchrageIsParkMiller(x: nat)
    requires x < WORD
    ensures Schrage(x) == (16807 * x) % M
    ensures -0x8000_0000 <= 16807 * (x % 127773) - 2836 * (x / 127773) < M
  {
    var hi := x / 127773;
    var lo := x % 127773;
    var word := 16807 * lo - 2836 * hi;
    assert x == 127773 * hi + lo;
    assert 16807 * x == M * hi + word;
    assert hi <= 33614;
    if word < 0 {
      Division(16807 * x, hi - 1, word + M);
    } else {
      Division(16807 * x, hi, word);
    }
  }

  lemma Division(y: nat, q: int, r: int)
    requires 0 <= r < M && y == M * q + r
    ensures y % M == r
  {
  }

  predicate IsWords(t: seq<int>)
  {
    forall i :: 0 <= i < |t| ==> 0 <= t[i] < WORD
  }

  /** The word at position `i` of the table as the recurrence computes it
      from the words before it: Park-Miller below 31, a copy up to 33, and
      the lagged sum of the words 31 and 3 places back from then on. */
  function Rule(t: seq<int>, i: nat): int
    requires 1 <= i <= |t| && i < SIZE
  {
    if i < 31 then (16807 * t[i - 1]) % M
    else if i < 34 then t[i - 31]
    else (t[i - 31] + t[i - 3]) % WORD
  }

  /** Reference definition: the word that follows the table prefix `t`. */
  function Entry(seed: nat, t: seq<int>): int
    requires |t| < SIZE
  {
    if |t| == 0 then Seed(seed) else Rule(t, |t|)
  }

  /** The first `k` words of the table that `GnuRand::new(seed)` builds. */
  function Table(seed: nat, k: nat): (t: seq<int>)
    requires k <= SIZE
    ensures |t| == k
  {
    if k == 0 then [] else Table(seed, k - 1) + [Entry(seed, Table(seed, k - 1))]
  }

  /** A longer table extends a shorter one. */
  lemma {:induction false} TablePrefix(seed: nat, j: nat, k: nat)
    requires j <= k <= SIZE
    ensures Table(seed, j) == Table(seed, k)[..j]
    decreases k
  {
    if j < k {
      TablePrefix(seed, j, k - 1);
    }
  }

  /** The table's recurrences, stated position by position. */
  lemma TableEntries(seed: nat)
    ensures var t := Table(seed, SIZE);
      t[0] == Seed(seed)
      && (forall i :: 1 <= i < 31 ==> t[i] == (16807 * t[i - 1]) % M)
      && (forall i :: 31 <= i < 34 ==> t[i] == t[i - 31])
      && (forall i :: 34 <= i < SIZE ==> t[i] == (t[i - 31] + t[i - 3]) % WORD)
  {
    var t := Table(seed, SIZE);
    TableRecurrent(seed);
    forall i | 1 <= i < SIZE
      ensures t[i] == Rule(t, i)
    {
    }
  }

  /** Every word of a table from a `u32` seed is a `u32`. */
  lemma {:induction false} TableWords(seed: nat, k: nat)
    requires seed < WORD && k <= SIZE
    ensures IsWords(Table(seed, k))
    decreases k
  {
    if k > 0 {
      TableWords(seed, k - 1);
    }
  }

  /** Seeds 0 and 1 build the same table. */
  lemma {:induction false} ZeroSeedIsOne(k: nat)
    requires k <= SIZE
    ensures Table(0, k) == Table(1, k)
    decreases k
  {
    if k > 0 {
      ZeroSeedIsOne(k - 1);
    }
  }

  /** Reference definition of `next`: the new table, the new `n` and the
      output. */
  function Step(t: seq<int>, n: nat): (seq<int>, nat, int)
    requires |t| == SIZE
  {
    var x := (t[(n + 313) % SIZE] + t[(n + 341) % SIZE]) % WORD;
    (t[n % SIZE := x], (n + 1) % SIZE, x / 2)
  }

  /** `next` keeps the table made of `u32` words and `n` below 344, returns
      a value in 0..2^31, and changes exactly one word. */
  lemma StepKeepsState(t: seq<int>, n: nat)
    requires |t| == SIZE && IsWords(t)
    ensures var (t', n', out) := Step(t, n);
      |t'| == SIZE && IsWords(t') && n' < SIZE && 0 <= out < 0x8000_0000
      && t'[n % SIZE] == 2 * out + (t'[n % SIZE] % 2)
      && (forall i :: 0 <= i < SIZE && i != n % SIZE ==> t'[i] == t[i])
  {
  }

  /** Stored word = lagged sum, so after the step the written word is the
      sum of the two words 31 and 3 places behind it, counted cyclically. */
  lemma StepIsLaggedSum(t: seq<int>, n: nat)
    requires |t| == SIZE
    ensures var (t', _, _) := Step(t, n);
      t'[n % SIZE] == (t[(n % SIZE + SIZE - 31) % SIZE] + t[(n % SIZE + SIZE - 3) % SIZE]) % WORD
  {
    var j := n % SIZE;
    assert (n + 313) % SIZE == (j + SIZE - 31) % SIZE;
    assert (n + 341) % SIZE == (j + SIZE - 3) % SIZE;
  }

  class GnuRand {
    var r: array<int>
    var n: nat

    ghost predicate Valid()
      reads this, r
    {
      r.Length == SIZE && n < SIZE && IsWords(r[..])
    }

    /** `GnuRand::new`: three loops fill the table. */
    constructor (seed: nat)
      requires seed < WORD
      ensures Valid() && fresh(r) && n == 0
      ensures r[..] == Table(seed, SIZE)
    {
      var a := new int[SIZE];
      a[0] := Seed(seed);
      assert a[..1] == Table(seed, 1);
      var i := 1;
      while i < 31
        invariant 1 <= i <= 31
        invariant a[..i] == Table(seed, i)
      {
        TableWords(seed, i);
        SchrageIsParkMiller(a[i - 1]);
        a[i] := Schrage(a[i - 1]);
        assert a[..i + 1] == a[..i] + [a[i]];
        i := i + 1;
      }
      while i < 34
        invariant 31 <= i <= 34
        invariant a[..i] == Table(seed, i)
      {
        a[i] := a[i - 31];
        assert a[..i + 1] == a[..i] + [a[i]];
        i := i + 1;
      }
      while i < SIZE
        invariant 34 <= i <= SIZE
        invariant a[..i] == Table(seed, i)
      {
        a[i] := (a[i - 31] + a[i - 3]) % WORD;
        assert a[..i + 1] == a[..i] + [a[i]];
        i := i + 1;
      }
      assert a[..] == a[..SIZE];
      TableWords(seed, SIZE);
      r := a;
      n := 0;
    }

    /** `GnuRand::next`. */
    method Next() returns (out: int)
      requires Valid()
      modifies this, r
      ensures Valid() && r == old(r)
      ensures (r[..], n, out) == Step(old(r[..]), old(n))
    {
      var x := (r[(n + 313) % SIZE] + r[(n + 341) % SIZE]) % WORD;
      r[n % SIZE] := x;
      n := (n + 1) % SIZE;
      out := x / 2;
    }
  }

  /** The generator state behind `srand` and `rand`; it stays empty until the
      first call. */
  class Global {
    var rnd: GnuRand?

    ghost predicate Valid()
      reads this, rnd, if rnd != null then {rnd.r} else {}
    {
      rnd != null ==> rnd.Valid()
    }

    constructor ()
      ensures rnd == null
    {
      rnd := null;
    }

    /** `srand`: replace the state by a fresh one from `seed`. */
    method Srand(seed: nat)
      requires seed < WORD
      modifies this
      ensures Valid() && rnd != null && fresh(rnd) && fresh(rnd.r)
      ensures rnd.r[..] == Table(seed, SIZE) && rnd.n == 0
    {
      rnd := new GnuRand(seed);
    }

    /** `rand`: create the state from seed 1 if there is none, then step it. */
    method Rand() returns (out: int)
      requires Valid()
      modifies this, rnd, if rnd != null then {rnd.r} else {}
      ensures Valid() && rnd != null
      ensures old(rnd) == null ==>
        (fresh(rnd) && fresh(rnd.r) && (rnd.r[..], rnd.n, out) == Step(Table(1, SIZE), 0))
      ensures old(rnd) != null ==>
        (rnd == old(rnd) && rnd.r == old(rnd.r) && (rnd.r[..], rnd.n, out) == Step(old(rnd.r[..]), old(rnd.n)))
    {
      if rnd == null {
        rnd := new GnuRand(1);
      }
      out := rnd.Next();
    }
  }

  /** The first words of the default table. */
  lemma ExampleDefaultTable()
    ensures Table(1, 4) == [1, 16807, 282475249, 1622650073]
  {
    assert Table(1, 1) == [1];
    assert Table(1, 2) == [1, 16807];
    assert Table(1, 3) == [1, 16807, 282475249];
  }

  /** The first three outputs of a fresh table from `seed`. */
  function FirstOutputs(seed: nat): (outs: seq<int>)
  {
    var (t1, n1, a) := Step(Table(seed, SIZE), 0);
    var (t2, n2, b) := Step(t1, n1);
    var (_, _, c) := Step(t2, n2);
    [a, b, c]
  }

  /** The three outputs depend only on words 313 to 315 and 341 to 343. */
  lemma FirstOutputsFromWords(seed: nat)
    ensures var t := Table(seed, SIZE);
      FirstOutputs(seed) == [(t[313] + t[341]) % WORD / 2, (t[314] + t[342]) % WORD / 2,
                             (t[315] + t[343]) % WORD / 2]
  {
  }

  /** The glibc values of `rand` without `srand`. */
  lemma DefaultSeedOutputs(seed: nat)
    requires seed == 1
    ensures FirstOutputs(seed) == [1804289383, 846930886, 1681692777]
  {
    TableRecurrent(seed);
    Seed1Tail(Table(seed, SIZE));
    FirstOutputsFromWords(seed);
  }

  /** The unit test of `rand` alone: three calls on the lazily seeded state. */
  method TestRand() returns (a: int, b: int, c: int)
    ensures [a, b, c] == [1804289383, 846930886, 1681692777]
  {
    var g := new Global();
    a := g.Rand();
    b := g.Rand();
    c := g.Rand();
    DefaultSeedOutputs(1);
  }

  /** The unit test of `srand(5)` followed by three calls of `rand`. */
  method TestSrand() returns (a: int, b: int, c: int)
    ensures [a, b, c] == [590011675, 99788765, 2131925610]
  {
    var g := new Global();
    g.Srand(5);
    a := g.Rand();
    b := g.Rand();
    c := g.Rand();
    SeedFiveOutputs(5);
  }

  /** The six words of seed 1's table that its first outputs read. */
  lemma Seed1Tail(t: seq<int>)
    requires Recurrent(1, t)
    ensures t[313] == 1040273694 && t[314] == 1313901226 && t[315] == 1627687941
      && t[341] == 2568305073 && t[342] == 379960547 && t[343] == 1735697613
  {
    Seed1Words0(t);
    Seed1Words34(t);
    Seed1Words65(t);
    Seed1Words96(t);
    Seed1Words127(t);
    Seed1Words158(t);
    Seed1Words189(t);
    Seed1Words220(t);
    Seed1Words251(t);
    Seed1Words282(t);
    Seed1Words313(t);
  }

  /** The glibc values of `rand` after `srand(5)`. */
  lemma SeedFiveOutputs(seed: nat)
    requires seed == 5
    ensures FirstOutputs(seed) == [590011675, 99788765, 2131925610]
  {
    TableRecurrent(seed);
    Seed5Tail(Table(seed, SIZE));
    FirstOutputsFromWords(seed);
  }

  /** The six words of seed 5's table that its first outputs read. */
  lemma Seed5Tail(t: seq<int>)
    requires Recurrent(5, t)
    ensures t[313] == 3104680167 && t[314] == 180410363 && t[315] == 3896086275
      && t[341] == 2370310480 && t[342] == 19167168 && t[343] == 367764945
  {
    Seed5Words0(t);
    Seed5Words34(t);
    Seed5Words65(t);
    Seed5Words96(t);
    Seed5Words127(t);
    Seed5Words158(t);
    Seed5Words189(t);
    Seed5Words220(t);
    Seed5Words251(t);
    Seed5Words282(t);
    Seed5Words313(t);
  }

  /** The table's recurrences as facts about a 344-word sequence; each one
      is instantiated only where `Rule` is mentioned. */
  ghost predicate Recurrent(seed: nat, t: seq<int>)
  {
    |t| == SIZE && t[0] == Seed(seed)
    && forall i {:trigger Rule(t, i)} :: 1 <= i < SIZE ==> t[i] == Rule(t, i)
  }

  /** Every table satisfies its recurrences. */
  lemma TableRecurrent(seed: nat)
    ensures Recurrent(seed, Table(seed, SIZE))
  {
    var t := Table(seed, SIZE);
    forall i | 1 <= i < SIZE
      ensures t[i] == Rule(t, i)
    {
      TablePrefix(seed, i, SIZE);
      TablePrefix(seed, i + 1, SIZE);
      assert Table(seed, i + 1)[i] == t[i];
      assert Rule(t[..i], i) == Rule(t, i);
    }
    TablePrefix(seed, 1, SIZE);
    assert t[0] == Table(seed, 1)[0];
  }

  /** Words 0 to 33 of seed 1's table. */
  lemma Seed1Words0(t: seq<int>)
    requires Recurrent(1, t)
    ensures t[0] == 1 && t[1] == 16807 && t[2] == 282475249 && t[3] == 1622650073
      && t[4] == 984943658 && t[5] == 1144108930 && t[6] == 470211272 && t[7] == 101027544
      && t[8] == 1457850878 && t[9] == 1458777923 && t[10] == 2007237709 && t[11] == 823564440
      && t[12] == 1115438165 && t[13] == 1784484492 && t[14] == 74243042 && t[15] == 114807987
      && t[16] == 1137522503 && t[17] == 1441282327 && t[18] == 16531729 && t[19] == 823378840
      && t[20] == 143542612 && t[21] == 896544303 && t[22] == 1474833169 && t[23] == 1264817709
      && t[24] == 1998097157 && t[25] == 1817129560 && t[26] == 1131570933 && t[27] == 197493099
      && t[28] == 1404280278 && t[29] == 893351816 && t[30] == 1505795335 && t[31] == 1
      && t[32] == 16807 && t[33] == 282475249
  {
    forall i | 1 <= i < 34
      ensures t[i] == Rule(t, i)
    {
    }
  }

  /** Words 34 to 64 of seed 1's table, from the 31 before them. */
  lemma Seed1Words34(t: seq<int>)
    requires Recurrent(1, t)
    requires t[3] == 1622650073 && t[4] == 984943658 && t[5] == 1144108930 && t[6] == 470211272
      && t[7] == 101027544 && t[8] == 1457850878 && t[9] == 1458777923 && t[10] == 2007237709
      && t[11] == 823564440 && t[12] == 1115438165 && t[13] == 1784484492 && t[14] == 74243042
      && t[15] == 114807987 && t[16] == 1137522503 && t[17] == 1441282327 && t[18] == 16531729
      && t[19] == 823378840 && t[20] == 143542612 && t[21] == 896544303 && t[22] == 1474833169
      && t[23] == 1264817709 && t[24] == 1998097157 && t[25] == 1817129560 && t[26] == 1131570933
      && t[27] == 197493099 && t[28] == 1404280278 && t[29] == 893351816 && t[30] == 1505795335
      && t[31] == 1 && t[32] == 16807 && t[33] == 282475249
    ensures t[34] == 1622650074 && t[35] == 984960465 && t[36] == 1426584179 && t[37] == 2092861346
      && t[38] == 1085988009 && t[39] == 2884435057 && t[40] == 3551639269 && t[41] == 3093225718
      && t[42] == 3707999497 && t[43] == 372110138 && t[44] == 582742914 && t[45] == 3782242539
      && t[46] == 486918125 && t[47] == 1720265417 && t[48] == 928557570 && t[49] == 503449854
      && t[50] == 2543644257 && t[51] == 1072100182 && t[52] == 1399994157 && t[53] == 4018477426
      && t[54] == 2336917891 && t[55] == 3398091314 && t[56] == 1540639690 && t[57] == 3468488824
      && t[58] == 3595584413 && t[59] == 2944919968 && t[60] == 66873344 && t[61] == 806412452
      && t[62] == 2944919969 && t[63] == 66890151 && t[64] == 1088887701
  {
    forall i | 34 <= i < 65
      ensures t[i] == Rule(t, i)
    {
    }
  }

  /** Words 65 to 95 of seed 1's table, from the 31 before them. */
  lemma Seed1Words65(t: seq<int>)
    requires Recurrent(1, t)
    requires t[34] == 1622650074 && t[35] == 984960465 && t[36] == 1426584179 && t[37] == 2092861346
      && t[38] == 1085988009 && t[39] == 2884435057 && t[40] == 3551639269 && t[41] == 3093225718
      && t[42] == 3707999497 && t[43] == 372110138 && t[44] == 582742914 && t[45] == 3782242539
      && t[46] == 486918125 && t[47] == 1720265417 && t[48] == 928557570 && t[49] == 503449854
      && t[50] == 2543644257 && t[51] == 1072100182 && t[52] == 1399994157 && t[53] == 4018477426
      && t[54] == 2336917891 && t[55] == 3398091314 && t[56] == 1540639690 && t[57] == 3468488824
      && t[58] == 3595584413 && t[59] == 2944919968 && t[60] == 66873344 && t[61] == 806412452
      && t[62] == 2944919969 && t[63] == 66890151 && t[64] == 1088887701
    ensures t[65] == 272602747 && t[66] == 1051850616 && t[67] == 2515471880 && t[68] == 2365464093
      && t[69] == 2137838625 && t[70] == 1104939641 && t[71] == 1622136066 && t[72] == 936097047
      && t[73] == 517971842 && t[74] == 1994246204 && t[75] == 1518839961 && t[76] == 5247085
      && t[77] == 2481164329 && t[78] == 3239105378 && t[79] == 933804655 && t[80] == 2984614183
      && t[81] == 1487782339 && t[82] == 2005904837 && t[83] == 89641044 && t[84] == 1211292469
      && t[85] == 47855432 && t[86] == 3487732358 && t[87] == 2751932159 && t[88] == 3516344256
      && t[89] == 2788349475 && t[90] == 1401884831 && t[91] == 3583217600 && t[92] == 3594761927
      && t[93] == 51837504 && t[94] == 3650107751 && t[95] == 388682332
  {
    forall i | 65 <= i < 96
      ensures t[i] == Rule(t, i)
    {
    }
  }

  /** Words 96 to 126 of seed 1's table, from the 31 before them. */
  lemma Seed1Words96(t: seq<int>)
    requires Recurrent(1, t)
    requires t[65] == 272602747 && t[66] == 1051850616 && t[67] == 2515471880 && t[68] == 2365464093
      && t[69] == 2137838625 && t[70] == 1104939641 && t[71] == 1622136066 && t[72] == 936097047
      && t[73] == 517971842 && t[74] == 1994246204 && t[75] == 1518839961 && t[76] == 5247085
      && t[77] == 2481164329 && t[78] == 3239105378 && t[79] == 933804655 && t[80] == 2984614183
      && t[81] == 1487782339 && t[82] == 2005904837 && t[83] == 89641044 && t[84] == 1211292469
      && t[85] == 47855432 && t[86] == 3487732358 && t[87] == 2751932159 && t[88] == 3516344256
      && t[89] == 2788349475 && t[90] == 1401884831 && t[91] == 3583217600 && t[92] == 3594761927
      && t[93] == 51837504 && t[94] == 3650107751 && t[95] == 388682332
    ensures t[96] == 324440251 && t[97] == 406991071 && t[98] == 2904154212 && t[99] == 2689904344
      && t[100] == 2544829696 && t[101] == 4009093853 && t[102] == 17073114 && t[103] == 3480926743
      && t[104] == 232098399 && t[105] == 2011319318 && t[106] == 704799408 && t[107] == 237345484
      && t[108] == 197516351 && t[109] == 3943904786 && t[110] == 1171150139 && t[111] == 3182130534
      && t[112] == 1136719829 && t[113] == 3177054976 && t[114] == 3271771578 && t[115] == 2348012298
      && t[116] == 3224910408 && t[117] == 2464536640 && t[118] == 804977161 && t[119] == 2446287368
      && t[120] == 957918819 && t[121] == 2206861992 && t[122] == 1734537672 && t[123] == 257713450
      && t[124] == 2258699496 && t[125] == 1089678127 && t[126] == 646395782
  {
    forall i | 96 <= i < 127
      ensures t[i] == Rule(t, i)
    {
    }
  }

  /** Words 127 to 157 of seed 1's table, from the 31 before them. */
  lemma Seed1Words127(t: seq<int>)
    requires Recurrent(1, t)
    requires t[96] == 324440251 && t[97] == 406991071 && t[98] == 2904154212 && t[99] == 2689904344
      && t[100] == 2544829696 && t[101] == 4009093853 && t[102] == 17073114 && t[103] == 3480926743
      && t[104] == 232098399 && t[105] == 2011319318 && t[106] == 704799408 && t[107] == 237345484
      && t[108] == 197516351 && t[109] == 3943904786 && t[110] == 1171150139 && t[111] == 3182130534
      && t[112] == 1136719829 && t[113] == 3177054976 && t[114] == 3271771578 && t[115] == 2348012298
      && t[116] == 3224910408 && t[117] == 2464536640 && t[118] == 804977161 && t[119] == 2446287368
      && t[120] == 957918819 && t[121] == 2206861992 && t[122] == 1734537672 && t[123] == 257713450
      && t[124] == 2258699496 && t[125] == 1089678127 && t[126] == 646395782
    ensures t[127] == 2583139747 && t[128] == 1496669198 && t[129] == 3550549994 && t[130] == 978076795
      && t[131] == 4041498894 && t[132] == 3264676551 && t[133] == 995149909 && t[134] == 3227458341
      && t[135] == 3496774950 && t[136] == 3006469227 && t[137] == 3932257749 && t[138] == 3734120434
      && t[139] == 3203985578 && t[140] == 3581195239 && t[141] == 610303277 && t[142] == 2091148816
      && t[143] == 422947772 && t[144] == 3787358253 && t[145] == 1067953098 && t[146] == 2770960070
      && t[147] == 2717301365 && t[148] == 3532489738 && t[149] == 3575937231 && t[150] == 868621437
      && t[151] == 195441261 && t[152] == 1487831927 && t[153] == 2603159109 && t[154] == 453154711
      && t[155] == 3746531423 && t[156] == 3692837236 && t[157] == 1099550493
  {
    forall i | 127 <= i < 158
      ensures t[i] == Rule(t, i)
    {
    }
  }

  /** Words 158 to 188 of seed 1's table, from the 31 before them. */
  lemma Seed1Words158(t: seq<int>)
    requires Recurrent(1, t)
    requires t[127] == 2583139747 && t[128] == 1496669198 && t[129] == 3550549994 && t[130] == 978076795
      && t[131] == 4041498894 && t[132] == 3264676551 && t[133] == 995149909 && t[134] == 3227458341
      && t[135] == 3496774950 && t[136] == 3006469227 && t[137] == 3932257749 && t[138] == 3734120434
      && t[139] == 3203985578 && t[140] == 3581195239 && t[141] == 610303277 && t[142] == 2091148816
      && t[143] == 422947772 && t[144] == 3787358253 && t[145] == 1067953098 && t[146] == 2770960070
      && t[147] == 2717301365 && t[148] == 3532489738 && t[149] == 3575937231 && t[150] == 868621437
      && t[151] == 195441261 && t[152] == 1487831927 && t[153] == 2603159109 && t[154] == 453154711
      && t[155] == 3746531423 && t[156] == 3692837236 && t[157] == 1099550493
    ensures t[158] == 2034703874 && t[159] == 894539138 && t[160] == 355133191 && t[161] == 3012780669
      && t[162] == 641070736 && t[163] == 3619809742 && t[164] == 4007930578 && t[165] == 3868529077
      && t[166] == 2821617396 && t[167] == 2719432509 && t[168] == 3505819530 && t[169] == 2260770534
      && t[170] == 1628450791 && t[171] == 2792047473 && t[172] == 2871073811 && t[173] == 3719599607
      && t[174] == 3214995245 && t[175] == 2363464768 && t[176] == 492585409 && t[177] == 1690988019
      && t[178] == 785798837 && t[179] == 4025075147 && t[180] == 971957954 && t[181] == 1654420274
      && t[182] == 4220516408 && t[183] == 2459789881 && t[184] == 4257579383 && t[185] == 378703823
      && t[186] == 1911354008 && t[187] == 3655449323 && t[188] == 1478254316
  {
    forall i | 158 <= i < 189
      ensures t[i] == Rule(t, i)
    {
    }
  }

  /** Words 189 to 219 of seed 1's table, from the 31 before them. */
  lemma Seed1Words189(t: seq<int>)
    requires Recurrent(1, t)
    requires t[158] == 2034703874 && t[159] == 894539138 && t[160] == 355133191 && t[161] == 3012780669
      && t[162] == 641070736 && t[163] == 3619809742 && t[164] == 4007930578 && t[165] == 3868529077
      && t[166] == 2821617396 && t[167] == 2719432509 && t[168] == 3505819530 && t[169] == 2260770534
      && t[170] == 1628450791 && t[171] == 2792047473 && t[172] == 2871073811 && t[173] == 3719599607
      && t[174] == 3214995245 && t[175] == 2363464768 && t[176] == 492585409 && t[177] == 1690988019
      && t[178] == 785798837 && t[179] == 4025075147 && t[180] == 971957954 && t[181] == 1654420274
      && t[182] == 4220516408 && t[183] == 2459789881 && t[184] == 4257579383 && t[185] == 378703823
      && t[186] == 1911354008 && t[187] == 3655449323 && t[188] == 1478254316
    ensures t[189] == 3946057882 && t[190] == 255021165 && t[191] == 1833387507 && t[192] == 2663871255
      && t[193] == 896091901 && t[194] == 1158229953 && t[195] == 2376834537 && t[196] == 469653682
      && t[197] == 3979847349 && t[198] == 801299750 && t[199] == 3975473212 && t[200] == 1945650587
      && t[201] == 2429750541 && t[202] == 2472553389 && t[203] == 521757102 && t[204] == 1854382852
      && t[205] == 1392581338 && t[206] == 2885221870 && t[207] == 2346968261 && t[208] == 3083569357
      && t[209] == 3671020707 && t[210] == 2077076112 && t[211] == 4055527311 && t[212] == 1030473685
      && t[213] == 2002625224 && t[214] == 2220349896 && t[215] == 993085772 && t[216] == 2381329047
      && t[217] == 4131703904 && t[218] == 353567799 && t[219] == 3859583363
  {
    forall i | 189 <= i < 220
      ensures t[i] == Rule(t, i)
    {
    }
  }

  /** Words 220 to 250 of seed 1's table, from the 31 before them. */
  lemma Seed1Words220(t: seq<int>)
    requires Recurrent(1, t)
    requires t[189] == 3946057882 && t[190] == 255021165 && t[191] == 1833387507 && t[192] == 2663871255
      && t[193] == 896091901 && t[194] == 1158229953 && t[195] == 2376834537 && t[196] == 469653682
      && t[197] == 3979847349 && t[198] == 801299750 && t[199] == 3975473212 && t[200] == 1945650587
      && t[201] == 2429750541 && t[202] == 2472553389 && t[203] == 521757102 && t[204] == 1854382852
      && t[205] == 1392581338 && t[206] == 2885221870 && t[207] == 2346968261 && t[208] == 3083569357
      && t[209] == 3671020707 && t[210] == 2077076112 && t[211] == 4055527311 && t[212] == 1030473685
      && t[213] == 2002625224 && t[214] == 2220349896 && t[215] == 993085772 && t[216] == 2381329047
      && t[217] == 4131703904 && t[218] == 353567799 && t[219] == 3859583363
    ensures t[220] == 3782794490 && t[221] == 608588964 && t[222] == 1398003574 && t[223] == 2151698449
      && t[224] == 1504680865 && t[225] == 2556233527 && t[226] == 233565690 && t[227] == 1974334547
      && t[228] == 2241113580 && t[229] == 1034865440 && t[230] == 1654840463 && t[231] == 4186764167
      && t[232] == 3464615981 && t[233] == 4127393852 && t[234] == 413553973 && t[235] == 1024031537
      && t[236] == 1225007894 && t[237] == 3298775843 && t[238] == 3370999798 && t[239] == 13609955
      && t[240] == 2674829254 && t[241] == 1153108614 && t[242] == 4069137266 && t[243] == 3705302939
      && t[244] == 3155733838 && t[245] == 1994519866 && t[246] == 403421415 && t[247] == 1242095589
      && t[248] == 1831256474 && t[249] == 756989214 && t[250] == 806711656
  {
    forall i | 220 <= i < 251
      ensures t[i] == Rule(t, i)
    {
    }
  }

  /** Words 251 to 281 of seed 1's table, from the 31 before them. */
  lemma Seed1Words251(t: seq<int>)
    requires Recurrent(1, t)
    requires t[220] == 3782794490 && t[221] == 608588964 && t[222] == 1398003574 && t[223] == 2151698449
      && t[224] == 1504680865 && t[225] == 2556233527 && t[226] == 233565690 && t[227] == 1974334547
      && t[228] == 2241113580 && t[229] == 1034865440 && t[230] == 1654840463 && t[231] == 4186764167
      && t[232] == 3464615981 && t[233] == 4127393852 && t[234] == 413553973 && t[235] == 1024031537
      && t[236] == 1225007894 && t[237] == 3298775843 && t[238] == 3370999798 && t[239] == 13609955
      && t[240] == 2674829254 && t[241] == 1153108614 && t[242] == 4069137266 && t[243] == 3705302939
      && t[244] == 3155733838 && t[245] == 1994519866 && t[246] == 403421415 && t[247] == 1242095589
      && t[248] == 1831256474 && t[249] == 756989214 && t[250] == 806711656
    ensures t[251] == 1319083668 && t[252] == 1365578178 && t[253] == 2204715230 && t[254] == 3470782117
      && t[255] == 2870259043 && t[256] == 465981461 && t[257] == 3704347807 && t[258] == 549626294
      && t[259] == 2707095041 && t[260] == 444245951 && t[261] == 2204466757 && t[262] == 2598891912
      && t[263] == 3908861932 && t[264] == 2036893313 && t[265] == 3012445885 && t[266] == 637926173
      && t[267] == 3261901207 && t[268] == 2016254432 && t[269] == 4008925971 && t[270] == 3275511162
      && t[271] == 396116390 && t[272] == 867067289 && t[273] == 3049681132 && t[274] == 4101419329
      && t[275] == 4022801127 && t[276] == 749233702 && t[277] == 209873448 && t[278] == 969929420
      && t[279] == 2580490176 && t[280] == 966862662 && t[281] == 1776641076
  {
    forall i | 251 <= i < 282
      ensures t[i] == Rule(t, i)
    {
    }
  }

  /** Words 282 to 312 of seed 1's table, from the 31 before them. */
  lemma Seed1Words282(t: seq<int>)
    requires Recurrent(1, t)
    requires t[251] == 1319083668 && t[252] == 1365578178 && t[253] == 2204715230 && t[254] == 3470782117
      && t[255] == 2870259043 && t[256] == 465981461 && t[257] == 3704347807 && t[258] == 549626294
      && t[259] == 2707095041 && t[260] == 444245951 && t[261] == 2204466757 && t[262] == 2598891912
      && t[263] == 3908861932 && t[264] == 2036893313 && t[265] == 3012445885 && t[266] == 637926173
      && t[267] == 3261901207 && t[268] == 2016254432 && t[269] == 4008925971 && t[270] == 3275511162
      && t[271] == 396116390 && t[272] == 867067289 && t[273] == 3049681132 && t[274] == 4101419329
      && t[275] == 4022801127 && t[276] == 749233702 && t[277] == 209873448 && t[278] == 969929420
      && t[279] == 2580490176 && t[280] == 966862662 && t[281] == 1776641076
    ensures t[282] == 3899573844 && t[283] == 2332440840 && t[284] == 3981356306 && t[285] == 3075388665
      && t[286] == 907732587 && t[287] == 152370471 && t[288] == 2484769176 && t[289] == 1457358881
      && t[290] == 2859465512 && t[291] == 2929015127 && t[292] == 3661825638 && t[293] == 1163390128
      && t[294] == 2542909763 && t[295] == 1403751655 && t[296] == 4175836013 && t[297] == 3180835936
      && t[298] == 370685566 && t[299] == 1897123149 && t[300] == 2894794611 && t[301] == 3646196728
      && t[302] == 2293239539 && t[303] == 3761861900 && t[304] == 2400910564 && t[305] == 2099691572
      && t[306] == 3489695731 && t[307] == 3150144266 && t[308] == 2309565020 && t[309] == 164657855
      && t[310] == 1435667146 && t[311] == 3276427682 && t[312] == 1941298931
  {
    forall i | 282 <= i < 313
      ensures t[i] == Rule(t, i)
    {
    }
  }

  /** Words 313 to 343 of seed 1's table, from the 31 before them. */
  lemma Seed1Words313(t: seq<int>)
    requires Recurrent(1, t)
    requires t[282] == 3899573844 && t[283] == 2332440840 && t[284] == 3981356306 && t[285] == 3075388665
      && t[286] == 907732587 && t[287] == 152370471 && t[288] == 2484769176 && t[289] == 1457358881
      && t[290] == 2859465512 && t[291] == 2929015127 && t[292] == 3661825638 && t[293] == 1163390128
      && t[294] == 2542909763 && t[295] == 1403751655 && t[296] == 4175836013 && t[297] == 3180835936
      && t[298] == 370685566 && t[299] == 1897123149 && t[300] == 2894794611 && t[301] == 3646196728
      && t[302] == 2293239539 && t[303] == 3761861900 && t[304] == 2400910564 && t[305] == 2099691572
      && t[306] == 3489695731 && t[307] == 3150144266 && t[308] == 2309565020 && t[309] == 164657855
      && t[310] == 1435667146 && t[311] == 3276427682 && t[312] == 1941298931
    ensures t[313] == 1040273694 && t[314] == 1313901226 && t[315] == 1627687941 && t[316] == 4115662359
      && t[317] == 2221633813 && t[318] == 1780058412 && t[319] == 2305464239 && t[320] == 3678992694
      && t[321] == 344556628 && t[322] == 939512070 && t[323] == 3045851036 && t[324] == 1507946756
      && t[325] == 3482421833 && t[326] == 154635395 && t[327] == 1388815473 && t[328] == 2368290473
      && t[329] == 525320961 && t[330] == 3285938622 && t[331] == 968117788 && t[332] == 4171517689
      && t[333] == 1284210865 && t[334] == 435012392 && t[335] == 2277460957 && t[336] == 3383902437
      && t[337] == 3924708123 && t[338] == 1132637927 && t[339] == 1398500161 && t[340] == 4089365978
      && t[341] == 2568305073 && t[342] == 379960547 && t[343] == 1735697613
  {
    forall i | 313 <= i < 344
      ensures t[i] == Rule(t, i)
    {
    }
  }

  /** Words 0 to 33 of seed 5's table. */
  lemma Seed5Words0(t: seq<int>)
    requires Recurrent(5, t)
    ensures t[0] == 5 && t[1] == 84035 && t[2] == 1412376245 && t[3] == 1670799424
      && t[4] == 629750996 && t[5] == 1425577356 && t[6] == 203572713 && t[7] == 505137720
      && t[8] == 846803449 && t[9] == 851438674 && t[10] == 1446253957 && t[11] == 1970338553
      && t[12] == 1282223531 && t[13] == 332487872 && t[14] == 371215210 && t[15] == 574039935
      && t[16] == 1392645221 && t[17] == 763960694 && t[18] == 82658645 && t[19] == 1969410553
      && t[20] == 717713060 && t[21] == 187754221 && t[22] == 931714904 && t[23] == 2029121251
      && t[24] == 1400551197 && t[25] == 495713212 && t[26] == 1362887371 && t[27] == 987465495
      && t[28] == 578950449 && t[29] == 171791786 && t[30] == 1086525734 && t[31] == 5
      && t[32] == 84035 && t[33] == 1412376245
  {
    forall i | 1 <= i < 34
      ensures t[i] == Rule(t, i)
    {
    }
  }

  /** Words 34 to 64 of seed 5's table, from the 31 before them. */
  lemma Seed5Words34(t: seq<int>)
    requires Recurrent(5, t)
    requires t[3] == 1670799424 && t[4] == 629750996 && t[5] == 1425577356 && t[6] == 203572713
      && t[7] == 505137720 && t[8] == 846803449 && t[9] == 851438674 && t[10] == 1446253957
      && t[11] == 1970338553 && t[12] == 1282223531 && t[13] == 332487872 && t[14] == 371215210
      && t[15] == 574039935 && t[16] == 1392645221 && t[17] == 763960694 && t[18] == 82658645
      && t[19] == 1969410553 && t[20] == 717713060 && t[21] == 187754221 && t[22] == 931714904
      && t[23] == 2029121251 && t[24] == 1400551197 && t[25] == 495713212 && t[26] == 1362887371
      && t[27] == 987465495 && t[28] == 578950449 && t[29] == 171791786 && t[30] == 1086525734
      && t[31] == 5 && t[32] == 84035 && t[33] == 1412376245
    ensures t[34] == 1670799429 && t[35] == 629835031 && t[36] == 2837953601 && t[37] == 1874372142
      && t[38] == 1134972751 && t[39] == 3684757050 && t[40] == 2725810816 && t[41] == 2581226708
      && t[42] == 1360128307 && t[43] == 4008034347 && t[44] == 2913714580 && t[45] == 1731343517
      && t[46] == 287106986 && t[47] == 11392505 && t[48] == 2495304211 && t[49] == 369765631
      && t[50] == 1980803058 && t[51] == 3213017271 && t[52] == 557519852 && t[53] == 2912517962
      && t[54] == 947171226 && t[55] == 1958071049 && t[56] == 3408231174 && t[57] == 2310058597
      && t[58] == 2945536544 && t[59] == 3987181623 && t[60] == 2481850383 && t[61] == 4032062278
      && t[62] == 3987181628 && t[63] == 2481934418 && t[64] == 1149471227
  {
    forall i | 34 <= i < 65
      ensures t[i] == Rule(t, i)
    {
    }
  }

  /** Words 65 to 95 of seed 5's table, from the 31 before them. */
  lemma Seed5Words65(t: seq<int>)
    requires Recurrent(5, t)
    requires t[34] == 1670799429 && t[35] == 629835031 && t[36] == 2837953601 && t[37] == 1874372142
      && t[38] == 1134972751 && t[39] == 3684757050 && t[40] == 2725810816 && t[41] == 2581226708
      && t[42] == 1360128307 && t[43] == 4008034347 && t[44] == 2913714580 && t[45] == 1731343517
      && t[46] == 287106986 && t[47] == 11392505 && t[48] == 2495304211 && t[49] == 369765631
      && t[50] == 1980803058 && t[51] == 3213017271 && t[52] == 557519852 && t[53] == 2912517962
      && t[54] == 947171226 && t[55] == 1958071049 && t[56] == 3408231174 && t[57] == 2310058597
      && t[58] == 2945536544 && t[59] == 3987181623 && t[60] == 2481850383 && t[61] == 4032062278
      && t[62] == 3987181628 && t[63] == 2481934418 && t[64] == 1149471227
    ensures t[65] == 1363013761 && t[66] == 3111769449 && t[67] == 3987424828 && t[68] == 3237385903
      && t[69] == 4246742200 && t[70] == 3377214582 && t[71] == 1668229423 && t[72] == 2533001612
      && t[73] == 442375593 && t[74] == 1381296474 && t[75] == 1151748896 && t[76] == 2173719110
      && t[77] == 1668403460 && t[78] == 1163141401 && t[79] == 374056025 && t[80] == 2038169091
      && t[81] == 3143944459 && t[82] == 3587073296 && t[83] == 2595688943 && t[84] == 1761495125
      && t[85] == 239277226 && t[86] == 258792696 && t[87] == 874759003 && t[88] == 2549335823
      && t[89] == 3204329240 && t[90] == 566973330 && t[91] == 736218910 && t[92] == 2941424222
      && t[93] == 259187662 && t[94] == 3218153328 && t[95] == 4090895449
  {
    forall i | 65 <= i < 96
      ensures t[i] == Rule(t, i)
    {
    }
  }

  /** Words 96 to 126 of seed 5's table, from the 31 before them. */
  lemma Seed5Words96(t: seq<int>)
    requires Recurrent(5, t)
    requires t[65] == 1363013761 && t[66] == 3111769449 && t[67] == 3987424828 && t[68] == 3237385903
      && t[69] == 4246742200 && t[70] == 3377214582 && t[71] == 1668229423 && t[72] == 2533001612
      && t[73] == 442375593 && t[74] == 1381296474 && t[75] == 1151748896 && t[76] == 2173719110
      && t[77] == 1668403460 && t[78] == 1163141401 && t[79] == 374056025 && t[80] == 2038169091
      && t[81] == 3143944459 && t[82] == 3587073296 && t[83] == 2595688943 && t[84] == 1761495125
      && t[85] == 239277226 && t[86] == 258792696 && t[87] == 874759003 && t[88] == 2549335823
      && t[89] == 3204329240 && t[90] == 566973330 && t[91] == 736218910 && t[92] == 2941424222
      && t[93] == 259187662 && t[94] == 3218153328 && t[95] == 4090895449
    ensures t[96] == 1622201423 && t[97] == 2034955481 && t[98] == 3783352981 && t[99] == 564620030
      && t[100] == 1986730385 && t[101] == 2865600267 && t[102] == 2232849453 && t[103] == 224764701
      && t[104] == 3307975860 && t[105] == 3614145927 && t[106] == 1376513597 && t[107] == 1186727674
      && t[108] == 987582091 && t[109] == 2539654998 && t[110] == 1560783699 && t[111] == 3025751182
      && t[112] == 1388632161 && t[113] == 852889699 && t[114] == 1326472829 && t[115] == 3150127286
      && t[116] == 1092166925 && t[117] == 1585265525 && t[118] == 4024886289 && t[119] == 3641502748
      && t[120] == 494627469 && t[121] == 296892323 && t[122] == 82754362 && t[123] == 3436051691
      && t[124] == 556079985 && t[125] == 3300907690 && t[126] == 3231979844
  {
    forall i | 96 <= i < 127
      ensures t[i] == Rule(t, i)
    {
    }
  }

  /** Words 127 to 157 of seed 5's table, from the 31 before them. */
  lemma Seed5Words127(t: seq<int>)
    requires Recurrent(5, t)
    requires t[96] == 1622201423 && t[97] == 2034955481 && t[98] == 3783352981 && t[99] == 564620030
      && t[100] == 1986730385 && t[101] == 2865600267 && t[102] == 2232849453 && t[103] == 224764701
      && t[104] == 3307975860 && t[105] == 3614145927 && t[106] == 1376513597 && t[107] == 1186727674
      && t[108] == 987582091 && t[109] == 2539654998 && t[110] == 1560783699 && t[111] == 3025751182
      && t[112] == 1388632161 && t[113] == 852889699 && t[114] == 1326472829 && t[115] == 3150127286
      && t[116] == 1092166925 && t[117] == 1585265525 && t[118] == 4024886289 && t[119] == 3641502748
      && t[120] == 494627469 && t[121] == 296892323 && t[122] == 82754362 && t[123] == 3436051691
      && t[124] == 556079985 && t[125] == 3300907690 && t[126] == 3231979844
    ensures t[127] == 2178281408 && t[128] == 1040895875 && t[129] == 2720365529 && t[130] == 2742901438
      && t[131] == 3027626260 && t[132] == 1290998500 && t[133] == 680783595 && t[134] == 3252390961
      && t[135] == 304007064 && t[136] == 4294929522 && t[137] == 333937262 && t[138] == 1490734738
      && t[139] == 987544317 && t[140] == 2873592260 && t[141] == 3051518437 && t[142] == 4013295499
      && t[143] == 4262224421 && t[144] == 3904408136 && t[145] == 1044801032 && t[146] == 3117384411
      && t[147] == 701607765 && t[148] == 2630066557 && t[149] == 2847303404 && t[150] == 48143217
      && t[151] == 3124694026 && t[152] == 3144195727 && t[153] == 130897579 && t[154] == 2265778421
      && t[155] == 3700275712 && t[156] == 3431805269 && t[157] == 1202790969
  {
    forall i | 127 <= i < 158
      ensures t[i] == Rule(t, i)
    {
    }
  }

  /** Words 158 to 188 of seed 5's table, from the 31 before them. */
  lemma Seed5Words158(t: seq<int>)
    requires Recurrent(5, t)
    requires t[127] == 2178281408 && t[128] == 1040895875 && t[129] == 2720365529 && t[130] == 2742901438
      && t[131] == 3027626260 && t[132] == 1290998500 && t[133] == 680783595 && t[134] == 3252390961
      && t[135] == 304007064 && t[136] == 4294929522 && t[137] == 333937262 && t[138] == 1490734738
      && t[139] == 987544317 && t[140] == 2873592260 && t[141] == 3051518437 && t[142] == 4013295499
      && t[143] == 4262224421 && t[144] == 3904408136 && t[145] == 1044801032 && t[146] == 3117384411
      && t[147] == 701607765 && t[148] == 2630066557 && t[149] == 2847303404 && t[150] == 48143217
      && t[151] == 3124694026 && t[152] == 3144195727 && t[153] == 130897579 && t[154] == 2265778421
      && t[155] == 3700275712 && t[156] == 3431805269 && t[157] == 1202790969
    ensures t[158] == 1583589824 && t[159] == 177733848 && t[160] == 3923156498 && t[161] == 31523966
      && t[162] == 3205360108 && t[163] == 919187702 && t[164] == 712307561 && t[165] == 2162783773
      && t[166] == 1223194766 && t[167] == 712269787 && t[168] == 2496721035 && t[169] == 2713929504
      && t[170] == 1699814104 && t[171] == 1075345999 && t[172] == 1470480645 && t[173] == 1418142307
      && t[174] == 1042603124 && t[175] == 1079921485 && t[176] == 2462943339 && t[177] == 4159987535
      && t[178] == 1781529250 && t[179] == 798042600 && t[180] == 2712323643 && t[181] == 1829672467
      && t[182] == 3922736626 && t[183] == 1561552074 && t[184] == 1960570046 && t[185] == 1893547751
      && t[186] == 966860490 && t[187] == 1097408019 && t[188] == 3096338720
  {
    forall i | 158 <= i < 189
      ensures t[i] == Rule(t, i)
    {
    }
  }

  /** Words 189 to 219 of seed 5's table, from the 31 before them. */
  lemma Seed5Words189(t: seq<int>)
    requires Recurrent(5, t)
    requires t[158] == 1583589824 && t[159] == 177733848 && t[160] == 3923156498 && t[161] == 31523966
      && t[162] == 3205360108 && t[163] == 919187702 && t[164] == 712307561 && t[165] == 2162783773
      && t[166] == 1223194766 && t[167] == 712269787 && t[168] == 2496721035 && t[169] == 2713929504
      && t[170] == 1699814104 && t[171] == 1075345999 && t[172] == 1470480645 && t[173] == 1418142307
      && t[174] == 1042603124 && t[175] == 1079921485 && t[176] == 2462943339 && t[177] == 4159987535
      && t[178] == 1781529250 && t[179] == 798042600 && t[180] == 2712323643 && t[181] == 1829672467
      && t[182] == 3922736626 && t[183] == 1561552074 && t[184] == 1960570046 && t[185] == 1893547751
      && t[186] == 966860490 && t[187] == 1097408019 && t[188] == 3096338720
    ensures t[189] == 2550450314 && t[190] == 1275141867 && t[191] == 2724527922 && t[192] == 2581974280
      && t[193] == 185534679 && t[194] == 3643715624 && t[195] == 3294281841 && t[196] == 2348318452
      && t[197] == 571943094 && t[198] == 4006551628 && t[199] == 550072191 && t[200] == 3285872598
      && t[201] == 1411398436 && t[202] == 1625418190 && t[203] == 461385947 && t[204] == 2829540743
      && t[205] == 2668021314 && t[206] == 1541307432 && t[207] == 997516786 && t[208] == 2533041553
      && t[209] == 3322836682 && t[210] == 1795559386 && t[211] == 950397900 && t[212] == 857541853
      && t[213] == 1423328716 && t[214] == 2511949974 && t[215] == 2818111899 && t[216] == 3316876467
      && t[217] == 3478810464 && t[218] == 3915519918 && t[219] == 2118247891
  {
    forall i | 189 <= i < 220
      ensures t[i] == Rule(t, i)
    {
    }
  }

  /** Words 220 to 250 of seed 5's table, from the 31 before them. */
  lemma Seed5Words220(t: seq<int>)
    requires Recurrent(5, t)
    requires t[189] == 2550450314 && t[190] == 1275141867 && t[191] == 2724527922 && t[192] == 2581974280
      && t[193] == 185534679 && t[194] == 3643715624 && t[195] == 3294281841 && t[196] == 2348318452
      && t[197] == 571943094 && t[198] == 4006551628 && t[199] == 550072191 && t[200] == 3285872598
      && t[201] == 1411398436 && t[202] == 1625418190 && t[203] == 461385947 && t[204] == 2829540743
      && t[205] == 2668021314 && t[206] == 1541307432 && t[207] == 997516786 && t[208] == 2533041553
      && t[209] == 3322836682 && t[210] == 1795559386 && t[211] == 950397900 && t[212] == 857541853
      && t[213] == 1423328716 && t[214] == 2511949974 && t[215] == 2818111899 && t[216] == 3316876467
      && t[217] == 3478810464 && t[218] == 3915519918 && t[219] == 2118247891
    ensures t[220] == 1734293482 && t[221] == 895694489 && t[222] == 547808517 && t[223] == 21300466
      && t[224] == 1081229168 && t[225] == 4191524141 && t[226] == 3315582307 && t[227] == 3429547620
      && t[228] == 468499939 && t[229] == 3027166639 && t[230] == 3979619811 && t[231] == 3754372537
      && t[232] == 143597779 && t[233] == 1310070705 && t[234] == 4215758484 && t[235] == 2973138522
      && t[236] == 3978092019 && t[237] == 1462098620 && t[238] == 3970655308 && t[239] == 2216166276
      && t[240] == 489968006 && t[241] == 1471247398 && t[242] == 3166564176 && t[243] == 1347509859
      && t[244] == 2894576114 && t[245] == 1383546854 && t[246] == 4165621758 && t[247] == 1916485285
      && t[248] == 567390022 && t[249] == 3786174380 && t[250] == 4034733176
  {
    forall i | 220 <= i < 251
      ensures t[i] == Rule(t, i)
    {
    }
  }

  /** Words 251 to 281 of seed 5's table, from the 31 before them. */
  lemma Seed5Words251(t: seq<int>)
    requires Recurrent(5, t)
    requires t[220] == 1734293482 && t[221] == 895694489 && t[222] == 547808517 && t[223] == 21300466
      && t[224] == 1081229168 && t[225] == 4191524141 && t[226] == 3315582307 && t[227] == 3429547620
      && t[228] == 468499939 && t[229] == 3027166639 && t[230] == 3979619811 && t[231] == 3754372537
      && t[232] == 143597779 && t[233] == 1310070705 && t[234] == 4215758484 && t[235] == 2973138522
      && t[236] == 3978092019 && t[237] == 1462098620 && t[238] == 3970655308 && t[239] == 2216166276
      && t[240] == 489968006 && t[241] == 1471247398 && t[242] == 3166564176 && t[243] == 1347509859
      && t[244] == 2894576114 && t[245] == 1383546854 && t[246] == 4165621758 && t[247] == 1916485285
      && t[248] == 567390022 && t[249] == 3786174380 && t[250] == 4034733176
    ensures t[251] == 2301683504 && t[252] == 386901573 && t[253] == 287574397 && t[254] == 2322983970
      && t[255] == 1468130741 && t[256] == 184131242 && t[257] == 1343598981 && t[258] == 602711065
      && t[259] == 652631181 && t[260] == 75798324 && t[261] == 287363580 && t[262] == 112036422
      && t[263] == 219396103 && t[264] == 1597434285 && t[265] == 32827610 && t[266] == 3192534625
      && t[267] == 1280559008 && t[268] == 1494926230 && t[269] == 2868222637 && t[270] == 3496725284
      && t[271] == 1984894236 && t[272] == 44502739 && t[273] == 2368322164 && t[274] == 3332404095
      && t[275] == 2939078853 && t[276] == 3751869018 && t[277] == 3203058557 && t[278] == 560596842
      && t[279] == 24291744 && t[280] == 2694265641 && t[281] == 300362722
  {
    forall i | 251 <= i < 282
      ensures t[i] == Rule(t, i)
    {
    }
  }

  /** Words 282 to 312 of seed 5's table, from the 31 before them. */
  lemma Seed5Words282(t: seq<int>)
    requires Recurrent(5, t)
    requires t[251] == 2301683504 && t[252] == 386901573 && t[253] == 287574397 && t[254] == 2322983970
      && t[255] == 1468130741 && t[256] == 184131242 && t[257] == 1343598981 && t[258] == 602711065
      && t[259] == 652631181 && t[260] == 75798324 && t[261] == 287363580 && t[262] == 112036422
      && t[263] == 219396103 && t[264] == 1597434285 && t[265] == 32827610 && t[266] == 3192534625
      && t[267] == 1280559008 && t[268] == 1494926230 && t[269] == 2868222637 && t[270] == 3496725284
      && t[271] == 1984894236 && t[272] == 44502739 && t[273] == 2368322164 && t[274] == 3332404095
      && t[275] == 2939078853 && t[276] == 3751869018 && t[277] == 3203058557 && t[278] == 560596842
      && t[279] == 24291744 && t[280] == 2694265641 && t[281] == 300362722
    ensures t[282] == 2325975248 && t[283] == 3081167214 && t[284] == 587937119 && t[285] == 353991922
      && t[286] == 254330659 && t[287] == 772068361 && t[288] == 1697590903 && t[289] == 857041724
      && t[290] == 1424699542 && t[291] == 1773389227 && t[292] == 1144405304 && t[293] == 1536735964
      && t[294] == 1992785330 && t[295] == 2741839589 && t[296] == 1569563574 && t[297] == 890352659
      && t[298] == 4022398597 && t[299] == 3064489804 && t[300] == 3758575296 && t[301] == 3224156585
      && t[302] == 754416744 && t[303] == 3803078035 && t[304] == 1297511453 && t[305] == 4086820839
      && t[306] == 2447189592 && t[307] == 754413175 && t[308] == 2994912100 && t[309] == 3007786434
      && t[310] == 778704919 && t[311] == 1394210445 && t[312] == 3308149156
  {
    forall i | 282 <= i < 313
      ensures t[i] == Rule(t, i)
    {
    }
  }

  /** Words 313 to 343 of seed 5's table, from the 31 before them. */
  lemma Seed5Words313(t: seq<int>)
    requires Recurrent(5, t)
    requires t[282] == 2325975248 && t[283] == 3081167214 && t[284] == 587937119 && t[285] == 353991922
      && t[286] == 254330659 && t[287] == 772068361 && t[288] == 1697590903 && t[289] == 857041724
      && t[290] == 1424699542 && t[291] == 1773389227 && t[292] == 1144405304 && t[293] == 1536735964
      && t[294] == 1992785330 && t[295] == 2741839589 && t[296] == 1569563574 && t[297] == 890352659
      && t[298] == 4022398597 && t[299] == 3064489804 && t[300] == 3758575296 && t[301] == 3224156585
      && t[302] == 754416744 && t[303] == 3803078035 && t[304] == 1297511453 && t[305] == 4086820839
      && t[306] == 2447189592 && t[307] == 754413175 && t[308] == 2994912100 && t[309] == 3007786434
      && t[310] == 778704919 && t[311] == 1394210445 && t[312] == 3308149156
    ensures t[313] == 3104680167 && t[314] == 180410363 && t[315] == 3896086275 && t[316] == 3458672089
      && t[317] == 434741022 && t[318] == 373187340 && t[319] == 861295696 && t[320] == 1291782746
      && t[321] == 1797886882 && t[322] == 2634684923 && t[323] == 2436188050 && t[324] == 3334622846
      && t[325] == 332502957 && t[326] == 883060343 && t[327] == 609219124 && t[328] == 1222855616
      && t[329] == 610491644 && t[330] == 3673708928 && t[331] == 686463616 && t[332] == 3834648229
      && t[333] == 133158376 && t[334] == 194574355 && t[335] == 837192386 && t[336] == 4219979215
      && t[337] == 2641763947 && t[338] == 1591605561 && t[339] == 2919924019 && t[340] == 1354583085
      && t[341] == 2370310480 && t[342] == 19167168 && t[343] == 367764945
  {
    forall i | 313 <= i < 344
      ensures t[i] == Rule(t, i)
    {
    }
  }
}
