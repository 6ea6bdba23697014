/** `qsort`: the same comb sort as `qsort_r`, with a comparator that takes
    only the two elements. The loop, `next_gap` and `swap` are those of
    `QsortR`; `qsort` hands the comparator to them with an ignored context
    argument. */
module Qsort {
  import opened CStr
  import QsortR

  type Compar = (seq<int>, seq<int>) -> int

  /** The comparator with an ignored context argument. */
  function Lift(c: Compar): QsortR.Compar<int>
  {
    (x: seq<int>, y: seq<int>, arg: int) => c(x, y)
  }

  lemma LiftAnswers(c: Compar, x: seq<int>, y: seq<int>, arg: int)
    ensures Lift(c)(x, y, arg) == c(x, y)
  {
  }

  /** No two elements are each greater than the other. */
  ghost predicate Consistent(c: Compar)
  {
    forall x, y {:trigger c(x, y), c(y, x)} :: c(x, y) <= 0 || c(y, x) <= 0
  }

  /** Every element is not greater than the next. */
  ghost predicate AdjacentSorted(e: seq<seq<int>>, c: Compar)
  {
    forall p :: 0 <= p < |e| - 1 ==> c(e[p], e[p + 1]) <= 0
  }

  /** The two-argument predicates are the three-argument ones of the lifted
      comparator, whatever the context argument. */
  lemma LiftPreserves(c: Compar, e: seq<seq<int>>, arg: int)
    ensures Consistent(c) <==> QsortR.Consistent(Lift(c), arg)
    ensures AdjacentSorted(e, c) <==> QsortR.AdjacentSorted(e, Lift(c), arg)
  {
    if QsortR.Consistent(Lift(c), arg) {
      forall x, y ensures c(x, y) <= 0 || c(y, x) <= 0 {
        LiftAnswers(c, x, y, arg);
        LiftAnswers(c, y, x, arg);
      }
    }
  }

  /** `qsort`. The comparator is unwrapped without a check, so it must be
      present. */
  method Qsort(buf: array<int>, nmemb: nat, width: nat, compar: Option<Compar>)
    requires compar.Some? && Consistent(compar.value)
    requires buf.Length == nmemb * width
    modifies buf
    ensures nmemb <= 1 ==> buf[..] == old(buf[..])
    ensures AdjacentSorted(QsortR.Elems(buf[..], nmemb, width), compar.value)
    ensures multiset(QsortR.Elems(buf[..], nmemb, width)) == multiset(QsortR.Elems(old(buf[..]), nmemb, width))
  {
    var c := compar.value;
    ghost var before := buf[..];
    LiftPreserves(c, QsortR.Elems(before, nmemb, width), 0);
    QsortR.QsortR(buf, nmemb, width, Some(Lift(c)), 0);
    LiftPreserves(c, QsortR.Elems(buf[..], nmemb, width), 0);
  }

  /** The unit test's comparator: -1, 1 or 0 as the first word is below,
      above or equal to the second. */
  function Cmp(x: seq<int>, y: seq<int>): (r: int)
    ensures (r <= 0 <==> QsortR.I32(x) <= QsortR.I32(y)) && (r == 0 <==> QsortR.I32(x) == QsortR.I32(y))
  {
    if QsortR.I32(x) < QsortR.I32(y) then -1
    else if QsortR.I32(x) > QsortR.I32(y) then 1
    else 0
  }

  lemma CmpOrder()
    ensures QsortR.OrdersAsI32(Lift(Cmp), 0)
  {
    forall x, y
      ensures Lift(Cmp)(x, y, 0) <= 0 <==> QsortR.I32(x) <= QsortR.I32(y)
    {
      LiftAnswers(Cmp, x, y, 0);
    }
  }

  /** The unit test: the `i32` words 5, 4, 3, 2, 1 sort to 1, 2, 3, 4, 5. */
  method ExampleFiveToOne() returns (sorted: seq<int>)
    ensures sorted == [1, 0, 0, 0, 2, 0, 0, 0, 3, 0, 0, 0, 4, 0, 0, 0, 5, 0, 0, 0]
  {
    var buf := new int[20] [5, 0, 0, 0, 4, 0, 0, 0, 3, 0, 0, 0, 2, 0, 0, 0, 1, 0, 0, 0];
    ghost var before := buf[..];
    assert before == [5, 0, 0, 0, 4, 0, 0, 0, 3, 0, 0, 0, 2, 0, 0, 0, 1, 0, 0, 0];
    CmpOrder();
    QsortR.I32Order(Lift(Cmp), 0);
    LiftPreserves(Cmp, [], 0);
    Qsort(buf, 5, 4, Some(Cmp));
    LiftPreserves(Cmp, QsortR.Elems(buf[..], 5, 4), 0);
    QsortR.FiveToOne(before, buf[..], Lift(Cmp), 0);
    sorted := buf[..];
  }
}
