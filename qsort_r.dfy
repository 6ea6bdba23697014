/** `qsort_r`: a comb sort over `nmemb` elements of `width` bytes each. The
    gap shrinks by 10/13 (with the "rule of 11") down to 1; the sort stops
    after a gap-1 pass that swaps nothing. Elements are exchanged byte by
    byte. The comparator receives the two elements' bytes and `arg`. */
module QsortR {
  import opened CStr

  /** `next_gap`. */
  function NextGap(gap: nat): (g: nat)
    ensures g >= 1 && g != 9 && g != 10
    ensures gap <= 1 ==> g == 1
    ensures gap >= 2 ==> g < gap
  {
    var g := (gap * 10) / 13;
    if g == 9 || g == 10 then 11
    else if g <= 1 then 1
    else g
  }

  /** The gap becomes 11 exactly from gaps 12 to 15; from 12, 13 and 14 it
      is the rule of 11 that replaces 9 or 10. */
  lemma RuleOfEleven(gap: nat)
    ensures NextGap(gap) == 11 <==> 12 <= gap <= 15
  {
    if gap >= 16 {
      assert (gap * 10) / 13 >= 12;
    }
  }

  // ---------------------------------------------------------------------
  // Byte-level swap

  /** `s` with the `width` bytes at `a` and at `b` exchanged. */
  function SwapRanges(s: seq<int>, a: nat, b: nat, width: nat): (t: seq<int>)
    requires a + width <= b && b + width <= |s|
    ensures |t| == |s|
  {
    seq(|s|, p requires 0 <= p < |s| =>
      if a <= p < a + width then s[p - a + b]
      else if b <= p < b + width then s[p - b + a]
      else s[p])
  }

  /** Exchanging the same two ranges again restores the bytes. */
  lemma SwapRangesInvolution(s: seq<int>, a: nat, b: nat, width: nat)
    requires a + width <= b && b + width <= |s|
    ensures SwapRanges(SwapRanges(s, a, b, width), a, b, width) == s
  {
  }

  lemma SwapRangesStep(s: seq<int>, a: nat, b: nat, i: nat)
    requires a + i + 1 <= b && b + i + 1 <= |s|
    ensures SwapRanges(s, a, b, i + 1) == SwapRanges(s, a, b, i)[a + i := s[b + i]][b + i := s[a + i]]
  {
  }

  /** `swap`: exchanges `width` bytes at `a` and `b`, one byte at a time. */
  method SwapBytes(buf: array<int>, a: nat, b: nat, width: nat)
    requires a + width <= b && b + width <= buf.Length
    modifies buf
    ensures buf[..] == SwapRanges(old(buf[..]), a, b, width)
  {
    ghost var s := buf[..];
    var i := 0;
    while i < width
      invariant 0 <= i <= width
      invariant buf[..] == SwapRanges(s, a, b, i)
    {
      ghost var before := buf[..];
      buf[a + i], buf[b + i] := buf[b + i], buf[a + i];
      assert buf[..] == before[a + i := s[b + i]][b + i := s[a + i]];
      SwapRangesStep(s, a, b, i);
      i := i + 1;
    }
  }

  // ---------------------------------------------------------------------
  // The element view of a byte buffer

  lemma BlockBefore(k: nat, i: nat, width: nat)
    requires k < i
    ensures k * width + width <= i * width
  {
    assert i * width == k * width + (i - k) * width;
    assert (i - k) * width >= width by {
      assert (i - k) * width == width + (i - k - 1) * width;
    }
  }

  /** Element `k`: the bytes `k * width .. (k + 1) * width`. */
  function Elem(bytes: seq<int>, n: nat, width: nat, k: nat): (e: seq<int>)
    requires |bytes| == n * width && k < n
    ensures |e| == width
  {
    BlockBefore(k, n, width);
    bytes[k * width .. k * width + width]
  }

  /** The buffer as a sequence of `n` elements. */
  function Elems(bytes: seq<int>, n: nat, width: nat): (e: seq<seq<int>>)
    requires |bytes| == n * width
    ensures |e| == n
  {
    seq(n, k requires 0 <= k < n => Elem(bytes, n, width, k))
  }

  /** Byte `p` of the buffer lies in element `k` at offset `off`. */
  lemma {:induction false} Locate(p: nat, n: nat, width: nat) returns (k: nat, off: nat)
    requires p < n * width
    ensures k < n && off < width && p == k * width + off
    decreases p
  {
    assert n * width == (n - 1) * width + width;
    if p < width {
      k, off := 0, p;
    } else {
      var k', off' := Locate(p - width, n - 1, width);
      k, off := k' + 1, off';
      assert (k' + 1) * width == k' * width + width;
    }
  }

  lemma ElemByte(s: seq<int>, n: nat, width: nat, k: nat, off: nat)
    requires |s| == n * width && k < n && off < width
    ensures k * width + off < |s| && Elem(s, n, width, k)[off] == s[k * width + off]
  {
    BlockBefore(k, n, width);
  }

  /** The elements determine the bytes. */
  lemma ElemsInjective(s: seq<int>, t: seq<int>, n: nat, width: nat)
    requires |s| == n * width && |t| == n * width
    requires Elems(s, n, width) == Elems(t, n, width)
    ensures s == t
  {
    forall p | 0 <= p < |s|
      ensures s[p] == t[p]
    {
      var k, off := Locate(p, n, width);
      var x, y := Elem(s, n, width, k), Elem(t, n, width, k);
      assert x == Elems(s, n, width)[k] == Elems(t, n, width)[k] == y;
      ElemByte(s, n, width, k, off);
      ElemByte(t, n, width, k, off);
    }
  }

  function Swap(e: seq<seq<int>>, i: nat, j: nat): (f: seq<seq<int>>)
    requires i < |e| && j < |e|
    ensures |f| == |e|
  {
    e[i := e[j]][j := e[i]]
  }

  /** Swapping the bytes of elements `i` and `j` swaps the two elements and
      leaves every other element alone. */
  lemma ElemsSwap(bytes: seq<int>, n: nat, width: nat, i: nat, j: nat)
    requires |bytes| == n * width && i < j < n
    ensures i * width + width <= j * width && j * width + width <= |bytes|
    ensures Elems(SwapRanges(bytes, i * width, j * width, width), n, width)
      == Swap(Elems(bytes, n, width), i, j)
  {
    BlockBefore(i, j, width);
    BlockBefore(j, n, width);
    var t := SwapRanges(bytes, i * width, j * width, width);
    var e, f := Elems(bytes, n, width), Elems(t, n, width);
    forall k | 0 <= k < n
      ensures f[k] == Swap(e, i, j)[k]
    {
      ElemSwapAt(bytes, n, width, i, j, k);
    }
  }

  lemma ElemSwapAt(bytes: seq<int>, n: nat, width: nat, i: nat, j: nat, k: nat)
    requires |bytes| == n * width && i < j < n && k < n
    requires i * width + width <= j * width && j * width + width <= |bytes|
    ensures Elem(SwapRanges(bytes, i * width, j * width, width), n, width, k)
      == Elem(bytes, n, width, if k == i then j else if k == j then i else k)
  {
    var t := SwapRanges(bytes, i * width, j * width, width);
    var src := if k == i then j else if k == j then i else k;
    forall off | 0 <= off < width
      ensures Elem(t, n, width, k)[off] == Elem(bytes, n, width, src)[off]
    {
      ElemByte(t, n, width, k, off);
      ElemByte(bytes, n, width, src, off);
      SwapByteAt(bytes, n, width, i, j, k, off);
    }
  }

  /** Byte `off` of element `k` after the swap comes from the element that
      moves to `k`. */
  lemma SwapByteAt(bytes: seq<int>, n: nat, width: nat, i: nat, j: nat, k: nat, off: nat)
    requires |bytes| == n * width && i < j < n && k < n && off < width
    requires i * width + width <= j * width && j * width + width <= |bytes|
    ensures k * width + off < |bytes|
    ensures var src := if k == i then j else if k == j then i else k;
      src * width + off < |bytes|
      && SwapRanges(bytes, i * width, j * width, width)[k * width + off] == bytes[src * width + off]
  {
    BlockBefore(k, n, width);
    if k < i {
      BlockBefore(k, i, width);
    } else if i < k < j {
      BlockBefore(i, k, width);
      BlockBefore(k, j, width);
    } else if k > j {
      BlockBefore(j, k, width);
    }
  }

  // ---------------------------------------------------------------------
  // Comparators

  type Compar<!A> = (seq<int>, seq<int>, A) -> int

  /** The comparator's answer `> 0`: the pair is out of order. */
  predicate Greater<A>(cmp: Compar<A>, x: seq<int>, y: seq<int>, arg: A)
  {
    cmp(x, y, arg) > 0
  }

  /** No two elements are each greater than the other. Without this the
      sort need not stop: a comparator that always answers 1 makes every
      gap-1 pass swap. */
  ghost predicate Consistent<A>(cmp: Compar<A>, arg: A)
  {
    forall x, y {:trigger cmp(x, y, arg), cmp(y, x, arg)} :: cmp(x, y, arg) <= 0 || cmp(y, x, arg) <= 0
  }

  /** Every element is at most the one `gap` places after it. */
  ghost predicate GapSorted<A>(e: seq<seq<int>>, gap: nat, cmp: Compar<A>, arg: A)
  {
    forall p :: 0 <= p && p + gap < |e| ==> cmp(e[p], e[p + gap], arg) <= 0
  }

  ghost predicate AdjacentSorted<A>(e: seq<seq<int>>, cmp: Compar<A>, arg: A)
  {
    forall p :: 0 <= p < |e| - 1 ==> cmp(e[p], e[p + 1], arg) <= 0
  }

  /** Number of later elements that `x` is greater than. */
  function Above<A>(x: seq<int>, s: seq<seq<int>>, cmp: Compar<A>, arg: A): nat
  {
    if s == [] then 0 else (if cmp(x, s[0], arg) > 0 then 1 else 0) + Above(x, s[1..], cmp, arg)
  }

  /** Number of pairs in the wrong order. */
  function Inversions<A>(e: seq<seq<int>>, cmp: Compar<A>, arg: A): nat
  {
    if e == [] then 0 else Above(e[0], e[1..], cmp, arg) + Inversions(e[1..], cmp, arg)
  }

  lemma {:induction false} AboveAdjacentSwap<A>(x: seq<int>, s: seq<seq<int>>, i: nat, cmp: Compar<A>, arg: A)
    requires i + 1 < |s|
    ensures Above(x, Swap(s, i, i + 1), cmp, arg) == Above(x, s, cmp, arg)
    decreases i
  {
    var t := Swap(s, i, i + 1);
    if i == 0 {
      assert t[1..][1..] == s[1..][1..];
    } else {
      assert t[1..] == Swap(s[1..], i - 1, i);
      AboveAdjacentSwap(x, s[1..], i - 1, cmp, arg);
    }
  }

  /** Swapping an adjacent pair that is out of order removes exactly one
      inversion. */
  lemma {:induction false} InversionsAdjacentSwap<A>(e: seq<seq<int>>, i: nat, cmp: Compar<A>, arg: A)
    requires Consistent(cmp, arg) && i + 1 < |e| && cmp(e[i], e[i + 1], arg) > 0
    ensures Inversions(Swap(e, i, i + 1), cmp, arg) + 1 == Inversions(e, cmp, arg)
    decreases i
  {
    var f := Swap(e, i, i + 1);
    if i == 0 {
      assert cmp(e[1], e[0], arg) <= 0;
      assert f[1..][1..] == e[1..][1..];
      assert e[1..][0] == e[1] && f[1..][0] == e[0];
    } else {
      assert f[1..] == Swap(e[1..], i - 1, i);
      AboveAdjacentSwap(e[0], e[1..], i - 1, cmp, arg);
      InversionsAdjacentSwap(e[1..], i - 1, cmp, arg);
    }
  }

  lemma SwapPermutes(e: seq<seq<int>>, i: nat, j: nat)
    requires i < j < |e|
    ensures multiset(Swap(e, i, j)) == multiset(e)
  {
    var f1 := e[i := e[j]];
    assert multiset(f1) == multiset(e) - multiset{e[i]} + multiset{e[j]};
    assert f1[j] == e[j];
    assert multiset(f1[j := e[i]]) == multiset(f1) - multiset{e[j]} + multiset{e[i]};
  }

  // ---------------------------------------------------------------------
  // The sort

  /** `swap` on the elements `i` and `j`, whose bytes start at `a` and `b`. */
  method Exchange(buf: array<int>, nmemb: nat, width: nat, i: nat, j: nat, a: nat, b: nat)
    requires buf.Length == nmemb * width && i < j < nmemb
    requires a == i * width && b == j * width
    modifies buf
    ensures Elems(buf[..], nmemb, width) == Swap(Elems(old(buf[..]), nmemb, width), i, j)
  {
    ghost var before := buf[..];
    ElemsSwap(before, nmemb, width, i, j);
    SwapBytes(buf, a, b, width);
  }

  lemma ElemAt(s: seq<int>, n: nat, width: nat, k: nat, a: nat)
    requires |s| == n * width && k < n && a == k * width
    ensures a + width <= |s| && Elems(s, n, width)[k] == s[a .. a + width]
  {
    BlockBefore(k, n, width);
  }

  /** Where the cursors of a pass stand: `a` at element `k`, `b` at element
      `k + gap`, both inside the buffer. */
  lemma Offsets(k: nat, gap: nat, nmemb: nat, width: nat, a: nat, b: nat)
    requires 1 <= gap && k + gap < nmemb && a == k * width && b == (k + gap) * width
    ensures a + width <= b && b + width <= nmemb * width
    ensures a + width == (k + 1) * width && b + width == (k + 1 + gap) * width
  {
    BlockBefore(k, k + gap, width);
    BlockBefore(k + gap, nmemb, width);
  }

  /** Reference definition of a pass: the elements and the `any_swapped`
      flag after visiting positions `0 .. k - 1` with the given gap. */
  function Sweep<A>(e: seq<seq<int>>, gap: nat, k: nat, cmp: Compar<A>, arg: A): (r: (seq<seq<int>>, bool))
    requires 1 <= gap && k + gap <= |e|
    ensures |r.0| == |e|
    decreases k
  {
    if k == 0 then (e, false)
    else
      var r := Sweep(e, gap, k - 1, cmp, arg);
      if Greater(cmp, r.0[k - 1], r.0[k - 1 + gap], arg) then (Swap(r.0, k - 1, k - 1 + gap), true)
      else r
  }

  lemma SweepStep<A>(e: seq<seq<int>>, gap: nat, k: nat, cmp: Compar<A>, arg: A)
    requires 1 <= gap && k + 1 + gap <= |e|
    ensures var r := Sweep(e, gap, k, cmp, arg);
      Sweep(e, gap, k + 1, cmp, arg)
      == if Greater(cmp, r.0[k], r.0[k + gap], arg) then (Swap(r.0, k, k + gap), true) else r
  {
  }

  /** A pass only rearranges the elements. */
  lemma {:induction false} SweepPermutes<A>(e: seq<seq<int>>, gap: nat, k: nat, cmp: Compar<A>, arg: A)
    requires 1 <= gap && k + gap <= |e|
    ensures multiset(Sweep(e, gap, k, cmp, arg).0) == multiset(e)
    decreases k
  {
    if k > 0 {
      SweepPermutes(e, gap, k - 1, cmp, arg);
      var r := Sweep(e, gap, k - 1, cmp, arg);
      if Greater(cmp, r.0[k - 1], r.0[k - 1 + gap], arg) {
        SwapPermutes(r.0, k - 1, k - 1 + gap);
        assert Sweep(e, gap, k, cmp, arg).0 == Swap(r.0, k - 1, k - 1 + gap);
      } else {
        assert Sweep(e, gap, k, cmp, arg) == r;
      }
    }
  }

  /** A pass that swaps nothing leaves the elements alone and has seen every
      visited pair in order. */
  lemma {:induction false} SweepUnswapped<A>(e: seq<seq<int>>, gap: nat, k: nat, cmp: Compar<A>, arg: A)
    requires 1 <= gap && k + gap <= |e|
    ensures !Sweep(e, gap, k, cmp, arg).1 ==>
      Sweep(e, gap, k, cmp, arg).0 == e && forall p :: 0 <= p < k ==> cmp(e[p], e[p + gap], arg) <= 0
    decreases k
  {
    if k > 0 {
      SweepUnswapped(e, gap, k - 1, cmp, arg);
    }
  }

  /** A pass that swaps something was not handed elements sorted for its gap. */
  lemma {:induction false} SweepSwappedUnsorted<A>(e: seq<seq<int>>, gap: nat, k: nat, cmp: Compar<A>, arg: A)
    requires 1 <= gap && k + gap <= |e| && GapSorted(e, gap, cmp, arg)
    ensures Sweep(e, gap, k, cmp, arg) == (e, false)
    decreases k
  {
    if k > 0 {
      SweepSwappedUnsorted(e, gap, k - 1, cmp, arg);
    }
  }

  /** On a gap-1 pass every swap removes one inversion. */
  lemma {:induction false} SweepInversions<A>(e: seq<seq<int>>, k: nat, cmp: Compar<A>, arg: A)
    requires Consistent(cmp, arg) && k + 1 <= |e|
    ensures Inversions(Sweep(e, 1, k, cmp, arg).0, cmp, arg) + (if Sweep(e, 1, k, cmp, arg).1 then 1 else 0)
      <= Inversions(e, cmp, arg)
    decreases k
  {
    if k > 0 {
      SweepInversions(e, k - 1, cmp, arg);
      var f := Sweep(e, 1, k - 1, cmp, arg).0;
      if cmp(f[k - 1], f[k], arg) > 0 {
        InversionsAdjacentSwap(f, k - 1, cmp, arg);
      }
    }
  }

  /** One step of a pass: compare the elements at `a` and `b`, swap them
      if the comparator answers more than 0, and advance both cursors by one
      element. */
  method Visit<A>(buf: array<int>, nmemb: nat, width: nat, k: nat, gap: nat, a: nat, b: nat,
                  cmp: Compar<A>, arg: A, swapped: bool, ghost e0: seq<seq<int>>)
      returns (swapped': bool, a': nat, b': nat)
    requires buf.Length == nmemb * width && |e0| == nmemb && 1 <= gap && k + gap < nmemb
    requires a == k * width && b == (k + gap) * width
    requires (Elems(buf[..], nmemb, width), swapped) == Sweep(e0, gap, k, cmp, arg)
    modifies buf
    ensures (Elems(buf[..], nmemb, width), swapped') == Sweep(e0, gap, k + 1, cmp, arg)
    ensures a' == (k + 1) * width && b' == (k + 1 + gap) * width
  {
    Offsets(k, gap, nmemb, width, a, b);
    ElemAt(buf[..], nmemb, width, k, a);
    ElemAt(buf[..], nmemb, width, k + gap, b);
    SweepStep(e0, gap, k, cmp, arg);
    swapped' := swapped;
    if Greater(cmp, buf[a .. a + width], buf[b .. b + width], arg) {
      Exchange(buf, nmemb, width, k, k + gap, a, b);
      swapped' := true;
    }
    a' := a + width;
    b' := b + width;
  }

  /** One pass: compare each element with the one `gap` places later and
      swap the two if the comparator answers more than 0. The cursors `a`
      and `b` are byte offsets. */
  method Pass<A>(buf: array<int>, nmemb: nat, width: nat, gap: nat, cmp: Compar<A>, arg: A)
      returns (swapped: bool)
    requires buf.Length == nmemb * width && 1 <= gap < nmemb
    modifies buf
    ensures Elems(buf[..], nmemb, width) == Sweep(Elems(old(buf[..]), nmemb, width), gap, nmemb - gap, cmp, arg).0
    ensures swapped == Sweep(Elems(old(buf[..]), nmemb, width), gap, nmemb - gap, cmp, arg).1
  {
    ghost var e0 := Elems(buf[..], nmemb, width);
    swapped := false;
    var a: nat := 0;
    BlockBefore(gap, nmemb, width);
    var b: nat := gap * width;
    var k := 0;
    while k < nmemb - gap
      invariant 0 <= k <= nmemb - gap
      invariant a == k * width && b == (k + gap) * width
      invariant (Elems(buf[..], nmemb, width), swapped) == Sweep(e0, gap, k, cmp, arg)
    {
      swapped, a, b := Visit(buf, nmemb, width, k, gap, a, b, cmp, arg, swapped, e0);
      k := k + 1;
    }
    assert e0 == Elems(old(buf[..]), nmemb, width);
  }

  /** One round of the outer loop: shrink the gap and run a pass with it. */
  method Round<A>(buf: array<int>, nmemb: nat, width: nat, gap: nat, cmp: Compar<A>, arg: A)
    returns (gap': nat, swapped: bool)
    requires Consistent(cmp, arg) && buf.Length == nmemb * width && 1 <= gap <= nmemb && 2 <= nmemb
    modifies buf
    ensures gap' == NextGap(gap) && 1 <= gap' <= nmemb
    ensures Elems(buf[..], nmemb, width) == Sweep(Elems(old(buf[..]), nmemb, width), gap', nmemb - gap', cmp, arg).0
    ensures swapped == Sweep(Elems(old(buf[..]), nmemb, width), gap', nmemb - gap', cmp, arg).1
    ensures multiset(Elems(buf[..], nmemb, width)) == multiset(Elems(old(buf[..]), nmemb, width))
    ensures gap' <= 1 && !swapped ==> AdjacentSorted(Elems(buf[..], nmemb, width), cmp, arg)
    ensures gap' <= 1 && swapped ==>
      Inversions(Elems(buf[..], nmemb, width), cmp, arg) < Inversions(Elems(old(buf[..]), nmemb, width), cmp, arg)
  {
    gap' := NextGap(gap);
    ghost var e := Elems(buf[..], nmemb, width);
    ghost var k := nmemb - gap';
    swapped := Pass(buf, nmemb, width, gap', cmp, arg);
    SweepPermutes(e, gap', k, cmp, arg);
    SweepUnswapped(e, gap', k, cmp, arg);
    if gap' == 1 {
      SweepInversions(e, k, cmp, arg);
    }
  }

  /** `qsort_r`. The comparator is optional in the interface but unwrapped
      without a check, so it must be present. */
  method QsortR<A>(buf: array<int>, nmemb: nat, width: nat, compar: Option<Compar<A>>, arg: A)
    requires compar.Some? && Consistent(compar.value, arg)
    requires buf.Length == nmemb * width
    modifies buf
    ensures nmemb <= 1 ==> buf[..] == old(buf[..])
    ensures AdjacentSorted(Elems(buf[..], nmemb, width), compar.value, arg)
    ensures multiset(Elems(buf[..], nmemb, width)) == multiset(Elems(old(buf[..]), nmemb, width))
  {
    var cmp := compar.value;
    if nmemb <= 1 {
      return;
    }
    ghost var orig := Elems(buf[..], nmemb, width);
    var gap := nmemb;
    while true
      invariant 1 <= gap <= nmemb
      invariant multiset(Elems(buf[..], nmemb, width)) == multiset(orig)
      decreases gap, Inversions(Elems(buf[..], nmemb, width), cmp, arg)
    {
      var swapped;
      gap, swapped := Round(buf, nmemb, width, gap, cmp, arg);
      if gap <= 1 && !swapped {
        break;
      }
    }
    assert orig == Elems(old(buf[..]), nmemb, width);
  }

  // ---------------------------------------------------------------------
  // What the postcondition pins down

  /** `x` not greater than `y` and `y` not greater than `z` puts `x` not
      greater than `z`. */
  ghost predicate Transitive<A>(cmp: Compar<A>, arg: A)
  {
    forall x, y, z {:trigger cmp(x, y, arg), cmp(y, z, arg), cmp(x, z, arg)} ::
      cmp(x, y, arg) <= 0 && cmp(y, z, arg) <= 0 ==> cmp(x, z, arg) <= 0
  }

  /** Two elements of `e` that are each not greater than the other are
      equal. */
  ghost predicate Antisymmetric<A>(e: seq<seq<int>>, cmp: Compar<A>, arg: A)
  {
    forall i, j :: 0 <= i < |e| && 0 <= j < |e| && cmp(e[i], e[j], arg) <= 0 && cmp(e[j], e[i], arg) <= 0
      ==> e[i] == e[j]
  }

  ghost predicate Sorted<A>(e: seq<seq<int>>, cmp: Compar<A>, arg: A)
  {
    forall i, j :: 0 <= i < j < |e| ==> cmp(e[i], e[j], arg) <= 0
  }

  lemma {:induction false} Chain<A>(e: seq<seq<int>>, i: nat, j: nat, cmp: Compar<A>, arg: A)
    requires Transitive(cmp, arg) && AdjacentSorted(e, cmp, arg) && i < j < |e|
    ensures cmp(e[i], e[j], arg) <= 0
    decreases j - i
  {
    if i + 1 < j {
      Chain(e, i + 1, j, cmp, arg);
    }
  }

  /** With a transitive comparator, in order pair by pair is in order. */
  lemma AdjacentToSorted<A>(e: seq<seq<int>>, cmp: Compar<A>, arg: A)
    requires Transitive(cmp, arg) && AdjacentSorted(e, cmp, arg)
    ensures Sorted(e, cmp, arg)
  {
    forall i, j | 0 <= i < j < |e|
      ensures cmp(e[i], e[j], arg) <= 0
    {
      Chain(e, i, j, cmp, arg);
    }
  }

  /** Two arrangements of the same elements that are both in order are the
      same. */
  lemma {:induction false} SortedUnique<A>(a: seq<seq<int>>, b: seq<seq<int>>, cmp: Compar<A>, arg: A)
    requires Antisymmetric(a, cmp, arg) && Sorted(a, cmp, arg) && Sorted(b, cmp, arg)
    requires multiset(a) == multiset(b)
    ensures a == b
    decreases |a|
  {
    assert |a| == |multiset(a)| == |multiset(b)| == |b|;
    if |a| > 0 {
      SortedHead(a, b, cmp, arg);
      MultisetTail(a);
      MultisetTail(b);
      SortedTail(a, cmp, arg);
      SortedTail(b, cmp, arg);
      AntisymmetricTail(a, cmp, arg);
      SortedUnique(a[1..], b[1..], cmp, arg);
      HeadTail(a, b);
    }
  }

  lemma HeadTail<T>(a: seq<T>, b: seq<T>)
    requires |a| == |b| > 0 && a[0] == b[0] && a[1..] == b[1..]
    ensures a == b
  {
    assert a == [a[0]] + a[1..];
    assert b == [b[0]] + b[1..];
  }

  /** The first elements agree: each is not greater than the other. */
  lemma SortedHead<A>(a: seq<seq<int>>, b: seq<seq<int>>, cmp: Compar<A>, arg: A)
    requires Antisymmetric(a, cmp, arg) && Sorted(a, cmp, arg) && Sorted(b, cmp, arg)
    requires multiset(a) == multiset(b) && |a| == |b| > 0
    ensures a[0] == b[0]
  {
    assert a[0] in multiset(b) && b[0] in multiset(a);
    var j :| 0 <= j < |b| && b[j] == a[0];
    var i :| 0 <= i < |a| && a[i] == b[0];
    if i > 0 && j > 0 {
      assert cmp(a[0], a[i], arg) <= 0 && cmp(b[0], b[j], arg) <= 0;
    }
  }

  lemma SortedTail<A>(a: seq<seq<int>>, cmp: Compar<A>, arg: A)
    requires Sorted(a, cmp, arg) && |a| > 0
    ensures Sorted(a[1..], cmp, arg)
  {
    forall i, j | 0 <= i < j < |a| - 1
      ensures cmp(a[1..][i], a[1..][j], arg) <= 0
    {
      assert a[1..][i] == a[i + 1] && a[1..][j] == a[j + 1];
    }
  }

  lemma AntisymmetricTail<A>(a: seq<seq<int>>, cmp: Compar<A>, arg: A)
    requires Antisymmetric(a, cmp, arg) && |a| > 0
    ensures Antisymmetric(a[1..], cmp, arg)
  {
    forall i, j | 0 <= i < |a| - 1 && 0 <= j < |a| - 1
      ensures cmp(a[1..][i], a[1..][j], arg) <= 0 && cmp(a[1..][j], a[1..][i], arg) <= 0 ==> a[1..][i] == a[1..][j]
    {
      assert a[1..][i] == a[i + 1] && a[1..][j] == a[j + 1];
    }
  }

  /** With a transitive comparator, the postcondition of `QsortR` determines
      the result: any in-order arrangement of the input's elements is it. */
  lemma Determined<A>(a: seq<seq<int>>, b: seq<seq<int>>, cmp: Compar<A>, arg: A)
    requires Transitive(cmp, arg) && Antisymmetric(a, cmp, arg)
    requires AdjacentSorted(a, cmp, arg) && AdjacentSorted(b, cmp, arg)
    requires multiset(a) == multiset(b)
    ensures a == b
  {
    AdjacentToSorted(a, cmp, arg);
    AdjacentToSorted(b, cmp, arg);
    SortedUnique(a, b, cmp, arg);
  }

  lemma MultisetTail<T>(s: seq<T>)
    requires |s| > 0
    ensures multiset(s[1..]) == multiset(s) - multiset{s[0]}
  {
    assert s == [s[0]] + s[1..];
  }

  /** The elements as little-endian `i32` words. */
  function I32(x: seq<int>): int
  {
    if |x| != 4 then 0
    else
      var u := x[0] + 0x100 * x[1] + 0x1_0000 * x[2] + 0x100_0000 * x[3];
      if u >= 0x8000_0000 then u - 0x1_0000_0000 else u
  }

  /** The comparator answers "not greater" exactly when the first word is
      at most the second. */
  ghost predicate OrdersAsI32<A>(cmp: Compar<A>, arg: A)
  {
    forall x, y {:trigger cmp(x, y, arg)} :: cmp(x, y, arg) <= 0 <==> I32(x) <= I32(y)
  }

  lemma I32Order<A>(cmp: Compar<A>, arg: A)
    requires OrdersAsI32(cmp, arg)
    ensures Consistent(cmp, arg) && Transitive(cmp, arg)
  {
  }

  /** The unit test's comparator: `Ord::cmp` on the two words, as -1, 0 or 1. */
  function CmpI32(x: seq<int>, y: seq<int>, arg: int): (r: int)
    ensures r == -1 || r == 0 || r == 1
    ensures r < 0 <==> I32(x) < I32(y)
    ensures r == 0 <==> I32(x) == I32(y)
  {
    if I32(x) < I32(y) then -1 else if I32(x) == I32(y) then 0 else 1
  }

  lemma CmpI32Order(arg: int)
    ensures OrdersAsI32(CmpI32, arg)
  {
  }

  /** The unit test: the `i32` words 5, 4, 3, 2, 1 sort to 1, 2, 3, 4, 5. */
  method ExampleFiveToOne() returns (sorted: seq<int>)
    ensures sorted == [1, 0, 0, 0, 2, 0, 0, 0, 3, 0, 0, 0, 4, 0, 0, 0, 5, 0, 0, 0]
  {
    var buf := new int[20] [5, 0, 0, 0, 4, 0, 0, 0, 3, 0, 0, 0, 2, 0, 0, 0, 1, 0, 0, 0];
    ghost var before := buf[..];
    assert before == [5, 0, 0, 0, 4, 0, 0, 0, 3, 0, 0, 0, 2, 0, 0, 0, 1, 0, 0, 0];
    CmpI32Order(0);
    I32Order(CmpI32, 0);
    QsortR(buf, 5, 4, Some(CmpI32), 0);
    FiveToOne(before, buf[..], CmpI32, 0);
    sorted := buf[..];
  }

  /** With a comparator that orders as `i32`, any in-order rearrangement of
      the words 5, 4, 3, 2, 1 is 1, 2, 3, 4, 5. */
  lemma FiveToOne<A>(before: seq<int>, after: seq<int>, cmp: Compar<A>, arg: A)
    requires before == [5, 0, 0, 0, 4, 0, 0, 0, 3, 0, 0, 0, 2, 0, 0, 0, 1, 0, 0, 0] && |after| == 20
    requires OrdersAsI32(cmp, arg)
    requires AdjacentSorted(Elems(after, 5, 4), cmp, arg)
    requires multiset(Elems(after, 5, 4)) == multiset(Elems(before, 5, 4))
    ensures after == [1, 0, 0, 0, 2, 0, 0, 0, 3, 0, 0, 0, 4, 0, 0, 0, 5, 0, 0, 0]
  {
    var want := [1, 0, 0, 0, 2, 0, 0, 0, 3, 0, 0, 0, 4, 0, 0, 0, 5, 0, 0, 0];
    Elems5(before, 5, 4, 3, 2, 1);
    FiveToOneElems(Elems(after, 5, 4), cmp, arg);
    Elems5(want, 1, 2, 3, 4, 5);
    ElemsInjective(after, want, 5, 4);
  }

  lemma FiveToOneElems<A>(e: seq<seq<int>>, cmp: Compar<A>, arg: A)
    requires OrdersAsI32(cmp, arg) && AdjacentSorted(e, cmp, arg)
    requires multiset(e) == multiset([[5, 0, 0, 0], [4, 0, 0, 0], [3, 0, 0, 0], [2, 0, 0, 0], [1, 0, 0, 0]])
    ensures e == [[1, 0, 0, 0], [2, 0, 0, 0], [3, 0, 0, 0], [4, 0, 0, 0], [5, 0, 0, 0]]
  {
    var w1, w2, w3, w4, w5 := [1, 0, 0, 0], [2, 0, 0, 0], [3, 0, 0, 0], [4, 0, 0, 0], [5, 0, 0, 0];
    Reversed5(w1, w2, w3, w4, w5);
    AscendingWords(cmp, arg);
    I32Order(cmp, arg);
    Determined([w1, w2, w3, w4, w5], e, cmp, arg);
  }

  /** The words 1 to 5 in ascending order are in order and pairwise
      distinct to the comparator. */
  lemma AscendingWords<A>(cmp: Compar<A>, arg: A)
    requires OrdersAsI32(cmp, arg)
    ensures var a := [[1, 0, 0, 0], [2, 0, 0, 0], [3, 0, 0, 0], [4, 0, 0, 0], [5, 0, 0, 0]];
      AdjacentSorted(a, cmp, arg) && Antisymmetric(a, cmp, arg)
  {
    var a := [[1, 0, 0, 0], [2, 0, 0, 0], [3, 0, 0, 0], [4, 0, 0, 0], [5, 0, 0, 0]];
    forall i | 0 <= i < 5
      ensures I32(a[i]) == i + 1
    {
    }
    forall i, j | 0 <= i < 5 && 0 <= j < 5 && cmp(a[i], a[j], arg) <= 0 && cmp(a[j], a[i], arg) <= 0
      ensures a[i] == a[j]
    {
      assert I32(a[i]) == I32(a[j]);
    }
    forall p | 0 <= p < 4
      ensures cmp(a[p], a[p + 1], arg) <= 0
    {
      assert I32(a[p]) < I32(a[p + 1]);
    }
  }

  /** Reversing five elements is two swaps. */
  lemma Reversed5(a: seq<int>, b: seq<int>, c: seq<int>, d: seq<int>, e: seq<int>)
    ensures multiset([e, d, c, b, a]) == multiset([a, b, c, d, e])
  {
    var s := [e, d, c, b, a];
    SwapPermutes(s, 0, 4);
    SwapPermutes(Swap(s, 0, 4), 1, 3);
    SwapTwice(a, b, c, d, e);
  }

  lemma SwapTwice(a: seq<int>, b: seq<int>, c: seq<int>, d: seq<int>, e: seq<int>)
    ensures Swap(Swap([e, d, c, b, a], 0, 4), 1, 3) == [a, b, c, d, e]
  {
    var s := Swap([e, d, c, b, a], 0, 4);
    assert s == [a, d, c, b, e];
  }

  /** Five little-endian words below 256 as elements. */
  lemma Elems5(s: seq<int>, a: int, b: int, c: int, d: int, e: int)
    requires s == [a, 0, 0, 0, b, 0, 0, 0, c, 0, 0, 0, d, 0, 0, 0, e, 0, 0, 0]
    ensures Elems(s, 5, 4) == [[a, 0, 0, 0], [b, 0, 0, 0], [c, 0, 0, 0], [d, 0, 0, 0], [e, 0, 0, 0]]
  {
    assert s[0..4] == [a, 0, 0, 0] && s[4..8] == [b, 0, 0, 0] && s[8..12] == [c, 0, 0, 0];
    assert s[12..16] == [d, 0, 0, 0] && s[16..20] == [e, 0, 0, 0];
  }
}
