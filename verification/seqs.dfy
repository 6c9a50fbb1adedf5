/** Order-preserving filtering, counting and summing over sequences: the
    `Array.prototype.filter(...)`, `.filter(...).length` and accumulator
    loops the dashboard runs over its rows. Predicates and weights are
    passed as function values; callers pass named functions so that the
    same value appears wherever a count is mentioned. */
module Seqs {

  /** Array.prototype.filter: the elements satisfying `p`, in order. */
  function Filter<T>(xs: seq<T>, p: T -> bool): (ys: seq<T>)
    ensures |ys| <= |xs|
    ensures forall y :: y in ys ==> y in xs && p(y)
    ensures forall x :: x in xs && p(x) ==> x in ys
    decreases |xs|
  {
    if |xs| == 0 then []
    else (if p(xs[0]) then [xs[0]] else []) + Filter(xs[1..], p)
  }

  /** How many elements satisfy `p`. */
  function Count<T>(xs: seq<T>, p: T -> bool): nat {
    |Filter(xs, p)|
  }

  /** The conjunction of two predicates, as one predicate value. */
  function Both<T>(p: T -> bool, q: T -> bool): T -> bool {
    x => p(x) && q(x)
  }

  /** The negation of a predicate, as one predicate value. */
  function Not<T>(p: T -> bool): T -> bool {
    x => !p(x)
  }

  /** Sum of `f` over the elements: the total a chart's bars add up to, and
      the accumulated count of the folded provinces (src/App.jsx:209). */
  function SumOf<T>(xs: seq<T>, f: T -> nat): nat
    decreases |xs|
  {
    if |xs| == 0 then 0 else f(xs[0]) + SumOf(xs[1..], f)
  }

  /** `ys` is obtained from `xs` by deleting elements, keeping order. */
  predicate IsSubsequence<T(==)>(ys: seq<T>, xs: seq<T>)
    decreases |xs|
  {
    || ys == []
    || (|xs| > 0 && ((|ys| > 0 && ys[0] == xs[0] && IsSubsequence(ys[1..], xs[1..]))
                     || IsSubsequence(ys, xs[1..])))
  }

  lemma {:induction false} FilterIsSubsequence<T>(xs: seq<T>, p: T -> bool)
    ensures IsSubsequence(Filter(xs, p), xs)
    decreases |xs|
  {
    if |xs| > 0 {
      FilterIsSubsequence(xs[1..], p);
      var ys := Filter(xs, p);
      if p(xs[0]) {
        assert ys[0] == xs[0] && ys[1..] == Filter(xs[1..], p);
      } else {
        assert ys == Filter(xs[1..], p);
      }
    }
  }

  /** Filtering distributes over concatenation. */
  lemma {:induction false} FilterAppend<T>(a: seq<T>, b: seq<T>, p: T -> bool)
    ensures Filter(a + b, p) == Filter(a, p) + Filter(b, p)
    decreases |a|
  {
    if |a| > 0 {
      assert (a + b)[1..] == a[1..] + b;
      FilterAppend(a[1..], b, p);
    } else {
      assert a + b == b;
    }
  }

  /** Adding one element at the end adds one to the count exactly when it
      satisfies the predicate. */
  lemma CountSnoc<T>(xs: seq<T>, x: T, p: T -> bool)
    ensures Count(xs + [x], p) == Count(xs, p) + (if p(x) then 1 else 0)
  {
    FilterAppend(xs, [x], p);
    assert Filter([x], p) == (if p(x) then [x] else []) + Filter([x][1..], p);
  }

  /** Filtering with a predicate every element satisfies changes nothing. */
  lemma {:induction false} FilterKeepsAll<T>(xs: seq<T>, p: T -> bool)
    requires forall x :: x in xs ==> p(x)
    ensures Filter(xs, p) == xs
    decreases |xs|
  {
    if |xs| > 0 {
      assert forall x :: x in xs[1..] ==> x in xs;
      FilterKeepsAll(xs[1..], p);
    }
  }

  /** A predicate no element satisfies counts zero. */
  lemma {:induction false} CountNone<T>(xs: seq<T>, p: T -> bool)
    requires forall x :: x in xs ==> !p(x)
    ensures Count(xs, p) == 0
    decreases |xs|
  {
    if |xs| > 0 {
      assert forall x :: x in xs[1..] ==> x in xs;
      assert xs[0] in xs;
      CountNone(xs[1..], p);
    }
  }

  /** Two predicates that agree on every element select the same elements. */
  lemma {:induction false} FilterCongruent<T>(xs: seq<T>, p: T -> bool, q: T -> bool)
    requires forall x :: x in xs ==> p(x) == q(x)
    ensures Filter(xs, p) == Filter(xs, q)
    decreases |xs|
  {
    if |xs| > 0 {
      assert forall x :: x in xs[1..] ==> x in xs;
      FilterCongruent(xs[1..], p, q);
    }
  }

  /** Filtering twice is filtering once by the conjunction. */
  lemma {:induction false} FilterCompose<T>(xs: seq<T>, p: T -> bool, q: T -> bool)
    ensures Filter(Filter(xs, p), q) == Filter(xs, Both(p, q))
    decreases |xs|
  {
    if |xs| > 0 {
      FilterCompose(xs[1..], p, q);
      var head := if p(xs[0]) then [xs[0]] else [];
      FilterAppend(head, Filter(xs[1..], p), q);
      if p(xs[0]) {
        assert Filter(head, q) == (if q(xs[0]) then [xs[0]] else []) + Filter(head[1..], q);
      }
    }
  }

  /** The order in which two filters are applied does not matter. */
  lemma FilterCommute<T>(xs: seq<T>, p: T -> bool, q: T -> bool)
    ensures Filter(Filter(xs, p), q) == Filter(Filter(xs, q), p)
  {
    FilterCompose(xs, p, q);
    FilterCompose(xs, q, p);
    FilterCongruent(xs, Both(p, q), Both(q, p));
  }

  /** Counting over a concatenation. */
  lemma CountAppend<T>(a: seq<T>, b: seq<T>, p: T -> bool)
    ensures Count(a + b, p) == Count(a, p) + Count(b, p)
  {
    FilterAppend(a, b, p);
  }

  /** If every element satisfying `r` satisfies exactly one of `p` and `q`,
      and every element satisfying `p` or `q` satisfies `r`, the count of
      `r` splits into the counts of `p` and `q`. */
  lemma {:induction false} CountSplit<T>(xs: seq<T>, r: T -> bool, p: T -> bool, q: T -> bool)
    requires forall x :: x in xs ==> (r(x) <==> p(x) || q(x))
    requires forall x :: x in xs ==> !(p(x) && q(x))
    ensures Count(xs, r) == Count(xs, p) + Count(xs, q)
    decreases |xs|
  {
    if |xs| > 0 {
      assert forall x :: x in xs[1..] ==> x in xs;
      CountSplit(xs[1..], r, p, q);
      assert xs == [xs[0]] + xs[1..];
      CountAppend([xs[0]], xs[1..], r);
      CountAppend([xs[0]], xs[1..], p);
      CountAppend([xs[0]], xs[1..], q);
      assert Count([xs[0]], r) == (if r(xs[0]) then 1 else 0) by {
        assert Filter([xs[0]], r) == (if r(xs[0]) then [xs[0]] else []) + Filter([xs[0]][1..], r);
      }
      assert Count([xs[0]], p) == (if p(xs[0]) then 1 else 0) by {
        assert Filter([xs[0]], p) == (if p(xs[0]) then [xs[0]] else []) + Filter([xs[0]][1..], p);
      }
      assert Count([xs[0]], q) == (if q(xs[0]) then 1 else 0) by {
        assert Filter([xs[0]], q) == (if q(xs[0]) then [xs[0]] else []) + Filter([xs[0]][1..], q);
      }
    }
  }

  /** Summing over a concatenation. */
  lemma {:induction false} SumOfAppend<T>(a: seq<T>, b: seq<T>, f: T -> nat)
    ensures SumOf(a + b, f) == SumOf(a, f) + SumOf(b, f)
    decreases |a|
  {
    if |a| > 0 {
      assert (a + b)[1..] == a[1..] + b;
      SumOfAppend(a[1..], b, f);
    } else {
      assert a + b == b;
    }
  }

  /** Dropping elements of weight zero leaves the sum unchanged: the
      `.filter(item => item.value > 0)` steps of the dashboard. */
  lemma {:induction false} SumOfDropZeros<T>(xs: seq<T>, p: T -> bool, f: T -> nat)
    requires forall x :: x in xs && !p(x) ==> f(x) == 0
    ensures SumOf(Filter(xs, p), f) == SumOf(xs, f)
    decreases |xs|
  {
    if |xs| > 0 {
      assert forall x :: x in xs[1..] ==> x in xs;
      SumOfDropZeros(xs[1..], p, f);
      var ys := Filter(xs, p);
      if p(xs[0]) {
        assert ys[0] == xs[0] && ys[1..] == Filter(xs[1..], p);
      } else {
        assert xs[0] in xs;
        assert ys == Filter(xs[1..], p);
      }
    }
  }

  /** A sum splits into the part over the elements satisfying `p` and the
      part over the rest. */
  lemma {:induction false} SumOfPartition<T>(xs: seq<T>, p: T -> bool, f: T -> nat)
    ensures SumOf(Filter(xs, p), f) + SumOf(Filter(xs, Not(p)), f) == SumOf(xs, f)
    decreases |xs|
  {
    if |xs| > 0 {
      SumOfPartition(xs[1..], p, f);
      var ys, zs := Filter(xs, p), Filter(xs, Not(p));
      if p(xs[0]) {
        assert ys[0] == xs[0] && ys[1..] == Filter(xs[1..], p);
        assert zs == Filter(xs[1..], Not(p));
      } else {
        assert ys == Filter(xs[1..], p);
        assert zs[0] == xs[0] && zs[1..] == Filter(xs[1..], Not(p));
      }
    }
  }

  /** A sum of positive weights is zero only over no elements. */
  lemma SumOfPositive<T>(xs: seq<T>, f: T -> nat)
    requires forall x :: x in xs ==> f(x) > 0
    ensures SumOf(xs, f) == 0 <==> |xs| == 0
  {
    if |xs| > 0 {
      assert xs[0] in xs;
    }
  }

  /** Filtering keeps each element as often as the input holds it when it
      satisfies `p`, and drops it otherwise: no copy is lost or added. */
  lemma {:induction false} FilterMultiset<T>(xs: seq<T>, p: T -> bool)
    ensures forall x :: multiset(Filter(xs, p))[x] == if p(x) then multiset(xs)[x] else 0
    decreases |xs|
  {
    if |xs| > 0 {
      FilterMultiset(xs[1..], p);
      assert xs == [xs[0]] + xs[1..];
      assert multiset(xs) == multiset{xs[0]} + multiset(xs[1..]);
      var head := if p(xs[0]) then [xs[0]] else [];
      assert multiset(Filter(xs, p)) == multiset(head) + multiset(Filter(xs[1..], p));
    }
  }

  /** No two elements share a key. */
  predicate DistinctBy<T>(xs: seq<T>, key: T -> string) {
    forall i, j :: 0 <= i < j < |xs| ==> key(xs[i]) != key(xs[j])
  }

  /** Prepending an element whose key is new keeps the keys distinct. */
  lemma ConsDistinct<T>(x: T, xs: seq<T>, key: T -> string)
    requires DistinctBy(xs, key)
    requires forall y :: y in xs ==> key(y) != key(x)
    ensures DistinctBy([x] + xs, key)
  {
    var ys := [x] + xs;
    forall i, j | 0 <= i < j < |ys| ensures key(ys[i]) != key(ys[j]) {
      assert ys[j] == xs[j - 1];
      if i > 0 {
        assert ys[i] == xs[i - 1];
      }
    }
  }

  /** Appending an element whose key is new keeps the keys distinct. */
  lemma SnocDistinct<T>(xs: seq<T>, x: T, key: T -> string)
    requires DistinctBy(xs, key)
    requires forall y :: y in xs ==> key(y) != key(x)
    ensures DistinctBy(xs + [x], key)
  {
    var ys := xs + [x];
    forall i, j | 0 <= i < j < |ys| ensures key(ys[i]) != key(ys[j]) {
      assert ys[i] == xs[i];
      if j < |xs| {
        assert ys[j] == xs[j];
      }
    }
  }

  /** Filtering keeps the keys distinct. */
  lemma {:induction false} FilterKeepsDistinct<T>(xs: seq<T>, p: T -> bool, key: T -> string)
    requires DistinctBy(xs, key)
    ensures DistinctBy(Filter(xs, p), key)
    decreases |xs|
  {
    if |xs| > 0 {
      var tail := xs[1..];
      assert DistinctBy(tail, key) by {
        forall i, j | 0 <= i < j < |tail| ensures key(tail[i]) != key(tail[j]) {
          assert tail[i] == xs[i + 1] && tail[j] == xs[j + 1];
        }
      }
      FilterKeepsDistinct(tail, p, key);
      var rest := Filter(tail, p);
      if p(xs[0]) {
        forall y | y in rest ensures key(y) != key(xs[0]) {
          var j :| 0 <= j < |tail| && tail[j] == y;
          assert xs[j + 1] == y;
        }
        ConsDistinct(xs[0], rest, key);
      }
    }
  }

  /** A rearrangement of the elements of `xs` satisfying `p` holds exactly
      those elements. */
  lemma FilteredRearrangement<T>(xs: seq<T>, p: T -> bool, ys: seq<T>)
    requires multiset(ys) == multiset(Filter(xs, p))
    ensures forall y :: y in ys ==> y in xs && p(y)
    ensures forall i :: 0 <= i < |xs| && p(xs[i]) ==> xs[i] in ys
  {
    forall y | y in ys ensures y in xs && p(y) {
      assert y in multiset(Filter(xs, p));
    }
    forall i | 0 <= i < |xs| && p(xs[i]) ensures xs[i] in ys {
      assert xs[i] in Filter(xs, p);
      assert xs[i] in multiset(ys);
    }
  }

  /** A member satisfying the predicate is counted. */
  lemma CountMember<T>(xs: seq<T>, x: T, p: T -> bool)
    requires x in xs && p(x)
    ensures Count(xs, p) > 0
  {
    assert x in Filter(xs, p);
  }
}
