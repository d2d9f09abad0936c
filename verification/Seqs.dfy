/** Order-preserving selection from a sequence, as `retain` and `filter` do it. */
module Seqs {

  function Filter<T>(xs: seq<T>, keep: T -> bool): (ys: seq<T>)
    ensures forall y :: y in ys ==> y in xs && keep(y)
    ensures forall y :: y in xs && keep(y) ==> y in ys
    ensures |ys| <= |xs|
  {
    if xs == [] then []
    else (if keep(xs[0]) then [xs[0]] else []) + Filter(xs[1..], keep)
  }

  lemma {:induction false} FilterAppend<T>(xs: seq<T>, ys: seq<T>, keep: T -> bool)
    ensures Filter(xs + ys, keep) == Filter(xs, keep) + Filter(ys, keep)
  {
    if xs == [] {
      assert xs + ys == ys;
    } else {
      var first := if keep(xs[0]) then [xs[0]] else [];
      calc {
        Filter(xs + ys, keep);
        { assert (xs + ys)[1..] == xs[1..] + ys; }
        first + Filter(xs[1..] + ys, keep);
        { FilterAppend(xs[1..], ys, keep); }
        first + (Filter(xs[1..], keep) + Filter(ys, keep));
        (first + Filter(xs[1..], keep)) + Filter(ys, keep);
        Filter(xs, keep) + Filter(ys, keep);
      }
    }
  }

  lemma {:induction false} FilterAll<T>(xs: seq<T>, keep: T -> bool)
    ensures |Filter(xs, keep)| == |xs| <==> forall x :: x in xs ==> keep(x)
    ensures (forall x :: x in xs ==> keep(x)) ==> Filter(xs, keep) == xs
  {
    if xs != [] {
      FilterAll(xs[1..], keep);
      assert xs == [xs[0]] + xs[1..];
    }
  }

  predicate AllButLast<T>(xs: seq<T>, good: T -> bool) {
    |xs| <= 1 || (good(xs[0]) && AllButLast(xs[1..], good))
  }

  lemma {:induction false} FilterKeepsAllButLast<T>(xs: seq<T>, keep: T -> bool, good: T -> bool)
    requires AllButLast(xs, good)
    ensures AllButLast(Filter(xs, keep), good)
  {
    if |xs| > 1 {
      FilterKeepsAllButLast(xs[1..], keep, good);
      var later := Filter(xs[1..], keep);
      assert ([xs[0]] + later)[1..] == later;
      assert [] + later == later;
    }
  }

  lemma {:induction false} FilterAgrees<T>(xs: seq<T>, keep: T -> bool, same: T -> bool)
    requires forall i :: 0 <= i < |xs| ==> keep(xs[i]) == same(xs[i])
    ensures Filter(xs, keep) == Filter(xs, same)
  {
    if xs != [] {
      FilterAgrees(xs[1..], keep, same);
    }
  }

  lemma {:induction false} FilterThen<T>(xs: seq<T>, first: T -> bool, second: T -> bool, both: T -> bool)
    requires forall x :: x in xs ==> both(x) == (first(x) && second(x))
    ensures Filter(Filter(xs, first), second) == Filter(xs, both)
  {
    if xs != [] {
      FilterThen(xs[1..], first, second, both);
      var rest := Filter(xs[1..], first);
      if first(xs[0]) {
        assert ([xs[0]] + rest)[1..] == rest;
      } else {
        assert [] + rest == rest;
      }
    }
  }

  lemma {:induction false} FilterTwice<T>(xs: seq<T>, keep: T -> bool)
    ensures Filter(Filter(xs, keep), keep) == Filter(xs, keep)
  {
    FilterAll(Filter(xs, keep), keep);
  }
}
