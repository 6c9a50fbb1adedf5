/** The `.sort((a, b) => b.w - a.w)` calls of the dashboard: order by a
    numeric weight, largest first. The model is an insertion sort that puts
    an element before every later element of equal weight, as a stable sort
    does; what is proved is that the result is ordered and a permutation of
    the input. */
module Sorting {
  import opened Seqs

  predicate SortedDesc<T>(xs: seq<T>, w: T -> real) {
    forall i, j :: 0 <= i < j < |xs| ==> w(xs[i]) >= w(xs[j])
  }

  /** Prepending an element at least as heavy as every other keeps a
      sequence sorted. */
  lemma ConsSorted<T>(h: T, xs: seq<T>, w: T -> real)
    requires SortedDesc(xs, w)
    requires forall y :: y in xs ==> w(h) >= w(y)
    ensures SortedDesc([h] + xs, w)
  {
    var ys := [h] + xs;
    forall i, j | 0 <= i < j < |ys| ensures w(ys[i]) >= w(ys[j]) {
      assert ys[j] == xs[j - 1];
      if i > 0 {
        assert ys[i] == xs[i - 1];
      }
    }
  }

  function Insert<T>(x: T, xs: seq<T>, w: T -> real): (ys: seq<T>)
    requires SortedDesc(xs, w)
    ensures SortedDesc(ys, w)
    ensures multiset(ys) == multiset(xs) + multiset{x}
    decreases |xs|
  {
    if |xs| == 0 then [x]
    else if w(x) >= w(xs[0]) then
      ConsSorted(x, xs, w);
      [x] + xs
    else
      var rest := Insert(x, xs[1..], w);
      assert xs == [xs[0]] + xs[1..];
      InsertHeadBound(x, xs, rest, w);
      ConsSorted(xs[0], rest, w);
      [xs[0]] + rest
  }

  lemma InsertHeadBound<T>(x: T, xs: seq<T>, rest: seq<T>, w: T -> real)
    requires |xs| > 0 && SortedDesc(xs, w) && w(x) < w(xs[0])
    requires multiset(rest) == multiset(xs[1..]) + multiset{x}
    ensures forall y :: y in rest ==> w(xs[0]) >= w(y)
  {
    forall y | y in rest ensures w(xs[0]) >= w(y) {
      assert y in multiset(rest);
      if y != x {
        assert y in multiset(xs[1..]);
        var j :| 0 <= j < |xs[1..]| && xs[1..][j] == y;
        assert xs[j + 1] == y;
      }
    }
  }

  /** Largest weight first; the output is a rearrangement of the input. */
  function SortDesc<T>(xs: seq<T>, w: T -> real): (ys: seq<T>)
    ensures SortedDesc(ys, w)
    ensures multiset(ys) == multiset(xs)
    ensures |ys| == |xs|
    decreases |xs|
  {
    if |xs| == 0 then []
    else
      assert xs == [xs[0]] + xs[1..];
      Insert(xs[0], SortDesc(xs[1..], w), w)
  }

  lemma {:induction false} InsertSum<T>(x: T, xs: seq<T>, w: T -> real, f: T -> nat)
    requires SortedDesc(xs, w)
    ensures SumOf(Insert(x, xs, w), f) == f(x) + SumOf(xs, f)
    decreases |xs|
  {
    var ys := Insert(x, xs, w);
    if |xs| > 0 && w(x) < w(xs[0]) {
      InsertSum(x, xs[1..], w, f);
      assert ys[1..] == Insert(x, xs[1..], w);
    } else if |xs| > 0 {
      assert ys[1..] == xs;
    }
  }

  /** Sorting keeps every sum over the elements. */
  lemma {:induction false} SortKeepsSum<T>(xs: seq<T>, w: T -> real, f: T -> nat)
    ensures SumOf(SortDesc(xs, w), f) == SumOf(xs, f)
    decreases |xs|
  {
    if |xs| > 0 {
      SortKeepsSum(xs[1..], w, f);
      InsertSum(xs[0], SortDesc(xs[1..], w), w, f);
    }
  }

  /** Sorting keeps every count over the elements. */
  lemma SortKeepsCount<T>(xs: seq<T>, w: T -> real, p: T -> bool)
    ensures Count(SortDesc(xs, w), p) == Count(xs, p)
  {
    var ys := SortDesc(xs, w);
    MultisetCount(xs, ys, p);
  }

  /** Two rearrangements of each other have the same counts. */
  lemma {:induction false} MultisetCount<T>(xs: seq<T>, ys: seq<T>, p: T -> bool)
    requires multiset(xs) == multiset(ys)
    ensures Count(xs, p) == Count(ys, p)
    decreases |xs|
  {
    if |xs| == 0 {
      assert |ys| == |multiset(ys)| == 0;
    } else {
      var x := xs[0];
      assert x in multiset(ys);
      var i :| 0 <= i < |ys| && ys[i] == x;
      var rest := ys[..i] + ys[i + 1..];
      assert ys == ys[..i] + [x] + ys[i + 1..];
      assert xs == [x] + xs[1..];
      assert multiset(ys) == multiset(ys[..i]) + multiset{x} + multiset(ys[i + 1..]);
      assert multiset(rest) == multiset(ys[..i]) + multiset(ys[i + 1..]);
      assert multiset(xs) == multiset{x} + multiset(xs[1..]);
      assert multiset(xs[1..]) == multiset(xs) - multiset{x};
      assert multiset(rest) == multiset(ys) - multiset{x};
      MultisetCount(xs[1..], rest, p);
      CountAppend([x], xs[1..], p);
      CountAppend(ys[..i] + [x], ys[i + 1..], p);
      CountAppend(ys[..i], [x], p);
      CountAppend(ys[..i], ys[i + 1..], p);
    }
  }

  /** Inserting an element whose key is new keeps the keys distinct. */
  lemma {:induction false} InsertKeepsDistinct<T>(x: T, xs: seq<T>, w: T -> real, key: T -> string)
    requires SortedDesc(xs, w) && DistinctBy(xs, key)
    requires forall y :: y in xs ==> key(y) != key(x)
    ensures DistinctBy(Insert(x, xs, w), key)
    decreases |xs|
  {
    if |xs| == 0 {
    } else if w(x) >= w(xs[0]) {
      ConsDistinct(x, xs, key);
    } else {
      var tail := xs[1..];
      assert DistinctBy(tail, key) by {
        forall i, j | 0 <= i < j < |tail| ensures key(tail[i]) != key(tail[j]) {
          assert tail[i] == xs[i + 1] && tail[j] == xs[j + 1];
        }
      }
      InsertKeepsDistinct(x, tail, w, key);
      var rest := Insert(x, tail, w);
      forall y | y in rest ensures key(y) != key(xs[0]) {
        assert y in multiset(rest);
        if y != x {
          assert y in multiset(tail);
          var j :| 0 <= j < |tail| && tail[j] == y;
          assert xs[j + 1] == y;
        } else {
          assert xs[0] in xs;
        }
      }
      ConsDistinct(xs[0], rest, key);
    }
  }

  /** Sorting keeps the keys distinct. */
  lemma {:induction false} SortKeepsDistinct<T>(xs: seq<T>, w: T -> real, key: T -> string)
    requires DistinctBy(xs, key)
    ensures DistinctBy(SortDesc(xs, w), key)
    decreases |xs|
  {
    if |xs| > 0 {
      var tail := xs[1..];
      assert DistinctBy(tail, key) by {
        forall i, j | 0 <= i < j < |tail| ensures key(tail[i]) != key(tail[j]) {
          assert tail[i] == xs[i + 1] && tail[j] == xs[j + 1];
        }
      }
      SortKeepsDistinct(tail, w, key);
      var sorted := SortDesc(tail, w);
      forall y | y in sorted ensures key(y) != key(xs[0]) {
        assert y in multiset(tail);
        var j :| 0 <= j < |tail| && tail[j] == y;
        assert xs[j + 1] == y;
      }
      InsertKeepsDistinct(xs[0], sorted, w, key);
    }
  }
}
