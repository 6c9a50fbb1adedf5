/** Grouping rows by a string key, the way the dashboard's `forEach` loops
    fill a plain object, adding one to the count under each row's key
    (src/App.jsx:119-123, 198-202): one group
    per distinct key, groups in the order their key is first met, each group
    holding its rows in input order. Reading the object back turns the
    groups into name and value entries. Keys are plain strings: the special
    behaviour of keys inherited from `Object.prototype` and the integer-like
    key order of JavaScript objects are not modelled. */
module Grouping {
  import opened Seqs

  datatype Group<T> = Group(key: string, items: seq<T>)

  /** One `{ name, value }` element of a chart data array. */
  datatype Entry = Entry(name: string, value: nat)

  function ValueOf(e: Entry): nat { e.value }

  function NameOf(e: Entry): string { e.name }

  /** The predicate "has key `k`", as one value. */
  function KeyIs<T>(key: T -> string, k: string): T -> bool {
    x => key(x) == k
  }

  /** The elements of `xs` whose key is `k`, in order. */
  function WithKey<T>(xs: seq<T>, key: T -> string, k: string): seq<T> {
    Filter(xs, KeyIs(key, k))
  }

  predicate DistinctKeys<T>(gs: seq<Group<T>>) {
    forall i, j :: 0 <= i < j < |gs| ==> gs[i].key != gs[j].key
  }

  predicate HasKey<T>(gs: seq<Group<T>>, k: string) {
    exists i :: 0 <= i < |gs| && gs[i].key == k
  }

  /** One step of the `forEach`: put `x` into the group for `k`, opening a
      new group at the end when `k` has not been seen. */
  function AddTo<T>(gs: seq<Group<T>>, k: string, x: T): (gs': seq<Group<T>>)
    requires DistinctKeys(gs)
    ensures HasKey(gs, k) ==> |gs'| == |gs|
    ensures !HasKey(gs, k) ==> |gs'| == |gs| + 1 && gs'[|gs|] == Group(k, [x])
    ensures forall i :: 0 <= i < |gs| ==>
      gs'[i] == Group(gs[i].key, if gs[i].key == k then gs[i].items + [x] else gs[i].items)
    ensures DistinctKeys(gs')
    decreases |gs|
  {
    if |gs| == 0 then [Group(k, [x])]
    else if gs[0].key == k then [Group(k, gs[0].items + [x])] + gs[1..]
    else
      var rest := AddTo(gs[1..], k, x);
      assert HasKey(gs[1..], k) ==> HasKey(gs, k);
      assert HasKey(gs, k) ==> HasKey(gs[1..], k) by {
        if HasKey(gs, k) {
          var i :| 0 <= i < |gs| && gs[i].key == k;
          assert gs[1..][i - 1].key == k;
        }
      }
      [gs[0]] + rest
  }

  /** The groups of `xs` under `key`: distinct keys, every element of `xs`
      in the group of its key and nowhere else, no group empty. */
  function GroupBy<T>(xs: seq<T>, key: T -> string): (gs: seq<Group<T>>)
    ensures DistinctKeys(gs)
    ensures forall i :: 0 <= i < |gs| ==> gs[i].items == WithKey(xs, key, gs[i].key)
    ensures forall i :: 0 <= i < |gs| ==> |gs[i].items| > 0
    ensures forall x :: x in xs ==> HasKey(gs, key(x))
    decreases |xs|
  {
    if |xs| == 0 then []
    else
      var pre := xs[..|xs| - 1];
      var x := xs[|xs| - 1];
      assert xs == pre + [x];
      var gs0 := GroupBy(pre, key);
      AddToExtendsGroups(gs0, pre, x, key);
      AddTo(gs0, key(x), x)
  }

  /** Selecting by key commutes with adding one element at the end. */
  lemma WithKeySnoc<T>(pre: seq<T>, x: T, key: T -> string, k: string)
    ensures WithKey(pre + [x], key, k) == WithKey(pre, key, k) + (if key(x) == k then [x] else [])
  {
    FilterAppend(pre, [x], KeyIs(key, k));
    assert Filter([x], KeyIs(key, k))
        == (if key(x) == k then [x] else []) + Filter([x][1..], KeyIs(key, k));
  }

  /** Adding the next element to the groups of a prefix gives the groups of
      the prefix extended by that element. */
  lemma AddToExtendsGroups<T>(gs0: seq<Group<T>>, pre: seq<T>, x: T, key: T -> string)
    requires DistinctKeys(gs0)
    requires forall i :: 0 <= i < |gs0| ==> gs0[i].items == WithKey(pre, key, gs0[i].key)
    requires forall i :: 0 <= i < |gs0| ==> |gs0[i].items| > 0
    requires forall y :: y in pre ==> HasKey(gs0, key(y))
    ensures var gs := AddTo(gs0, key(x), x);
      && (forall i :: 0 <= i < |gs| ==> gs[i].items == WithKey(pre + [x], key, gs[i].key))
      && (forall i :: 0 <= i < |gs| ==> |gs[i].items| > 0)
      && (forall y :: y in pre + [x] ==> HasKey(gs, key(y)))
  {
    AddToKeepsItems(gs0, pre, x, key);
    AddToKeepsCover(gs0, pre, x, key);
  }

  lemma AddToKeepsItems<T>(gs0: seq<Group<T>>, pre: seq<T>, x: T, key: T -> string)
    requires DistinctKeys(gs0)
    requires forall i :: 0 <= i < |gs0| ==> gs0[i].items == WithKey(pre, key, gs0[i].key)
    requires forall i :: 0 <= i < |gs0| ==> |gs0[i].items| > 0
    requires forall y :: y in pre ==> HasKey(gs0, key(y))
    ensures var gs := AddTo(gs0, key(x), x);
      && (forall i :: 0 <= i < |gs| ==> gs[i].items == WithKey(pre + [x], key, gs[i].key))
      && (forall i :: 0 <= i < |gs| ==> |gs[i].items| > 0)
  {
    var k := key(x);
    var gs := AddTo(gs0, k, x);
    forall i | 0 <= i < |gs0|
      ensures gs[i].items == WithKey(pre + [x], key, gs[i].key) && |gs[i].items| > 0
    {
      ExistingGroupGrows(gs0, pre, x, key, i);
    }
    if !HasKey(gs0, k) {
      NewGroupIsSingleton(gs0, pre, x, key);
    }
  }

  /** An existing group gains `x` exactly when `x` has its key. */
  lemma ExistingGroupGrows<T>(gs0: seq<Group<T>>, pre: seq<T>, x: T, key: T -> string, i: nat)
    requires DistinctKeys(gs0) && i < |gs0|
    requires gs0[i].items == WithKey(pre, key, gs0[i].key) && |gs0[i].items| > 0
    ensures var gs := AddTo(gs0, key(x), x);
      gs[i].items == WithKey(pre + [x], key, gs[i].key) && |gs[i].items| > 0
  {
    var g := gs0[i];
    var gs := AddTo(gs0, key(x), x);
    assert gs[i] == Group(g.key, if g.key == key(x) then g.items + [x] else g.items);
    WithKeySnoc(pre, x, key, g.key);
  }

  /** A key not seen before opens a group holding just `x`. */
  lemma NewGroupIsSingleton<T>(gs0: seq<Group<T>>, pre: seq<T>, x: T, key: T -> string)
    requires DistinctKeys(gs0)
    requires forall y :: y in pre ==> HasKey(gs0, key(y))
    requires !HasKey(gs0, key(x))
    ensures var gs := AddTo(gs0, key(x), x);
      gs[|gs0|].items == WithKey(pre + [x], key, key(x))
  {
    var k := key(x);
    assert forall y :: y in pre ==> !KeyIs(key, k)(y);
    CountNone(pre, KeyIs(key, k));
    WithKeySnoc(pre, x, key, k);
  }

  lemma AddToKeepsCover<T>(gs0: seq<Group<T>>, pre: seq<T>, x: T, key: T -> string)
    requires DistinctKeys(gs0)
    requires forall y :: y in pre ==> HasKey(gs0, key(y))
    ensures var gs := AddTo(gs0, key(x), x);
      forall y :: y in pre + [x] ==> HasKey(gs, key(y))
  {
    var gs := AddTo(gs0, key(x), x);
    forall y | y in pre + [x] ensures HasKey(gs, key(y)) {
      if y in pre {
        var i :| 0 <= i < |gs0| && gs0[i].key == key(y);
        assert gs[i].key == key(y);
      } else if HasKey(gs0, key(x)) {
        var i :| 0 <= i < |gs0| && gs0[i].key == key(x);
        assert gs[i].key == key(y);
      } else {
        assert gs[|gs0|].key == key(y);
      }
    }
  }

  /** Total number of items over all groups. */
  function SumSizes<T>(gs: seq<Group<T>>): nat
    decreases |gs|
  {
    if |gs| == 0 then 0 else |gs[0].items| + SumSizes(gs[1..])
  }

  /** Total number of items satisfying `p` over all groups. */
  function SumCount<T>(gs: seq<Group<T>>, p: T -> bool): nat
    decreases |gs|
  {
    if |gs| == 0 then 0 else Count(gs[0].items, p) + SumCount(gs[1..], p)
  }

  lemma {:induction false} AddToSums<T>(gs: seq<Group<T>>, k: string, x: T, p: T -> bool)
    requires DistinctKeys(gs)
    ensures SumSizes(AddTo(gs, k, x)) == SumSizes(gs) + 1
    ensures SumCount(AddTo(gs, k, x), p) == SumCount(gs, p) + (if p(x) then 1 else 0)
    decreases |gs|
  {
    var gs' := AddTo(gs, k, x);
    if |gs| == 0 {
      assert gs'[1..] == [];
      CountSnoc([], x, p);
    } else if gs[0].key == k {
      assert gs'[1..] == gs[1..];
      CountSnoc(gs[0].items, x, p);
    } else {
      AddToSums(gs[1..], k, x, p);
      assert gs'[1..] == AddTo(gs[1..], k, x);
    }
  }

  /** Breakdown consistency: summing a per-group count over the groups gives
      the count over the whole input, and the group sizes add up to the
      input length. */
  lemma {:induction false} GroupSums<T>(xs: seq<T>, key: T -> string, p: T -> bool)
    ensures SumCount(GroupBy(xs, key), p) == Count(xs, p)
    ensures SumSizes(GroupBy(xs, key)) == |xs|
    decreases |xs|
  {
    if |xs| > 0 {
      var pre := xs[..|xs| - 1];
      var x := xs[|xs| - 1];
      assert xs == pre + [x];
      GroupSums(pre, key, p);
      AddToSums(GroupBy(pre, key), key(x), x, p);
      CountSnoc(pre, x, p);
    }
  }

  /** The name and value pairs read back from a counting object: one entry
      per group, its value the group's size (src/App.jsx:270-271, 308-309). */
  function Tally<T>(gs: seq<Group<T>>): (es: seq<Entry>)
    ensures |es| == |gs|
    ensures forall i :: 0 <= i < |gs| ==> es[i] == Entry(gs[i].key, |gs[i].items|)
    ensures SumOf(es, ValueOf) == SumSizes(gs)
    decreases |gs|
  {
    if |gs| == 0 then []
    else
      var es := [Entry(gs[0].key, |gs[0].items|)] + Tally(gs[1..]);
      assert es[1..] == Tally(gs[1..]);
      es
  }

  /** The counts of `xs` by key: one entry per distinct key, the entry for
      `k` counting the elements whose key is `k`, the counts adding up to
      the length of `xs`. */
  function CountBy<T>(xs: seq<T>, key: T -> string): (es: seq<Entry>)
    ensures forall i, j :: 0 <= i < j < |es| ==> es[i].name != es[j].name
    ensures forall e :: e in es ==> e.value == |WithKey(xs, key, e.name)| && e.value > 0
    ensures forall x :: x in xs ==> Entry(key(x), |WithKey(xs, key, key(x))|) in es
    ensures SumOf(es, ValueOf) == |xs|
  {
    GroupSums(xs, key, KeyIs(key, ""));
    CountByCovers(xs, key);
    Tally(GroupBy(xs, key))
  }

  lemma CountByCovers<T>(xs: seq<T>, key: T -> string)
    ensures forall x :: x in xs ==> Entry(key(x), |WithKey(xs, key, key(x))|) in Tally(GroupBy(xs, key))
  {
    var gs := GroupBy(xs, key);
    var es := Tally(gs);
    forall x | x in xs ensures Entry(key(x), |WithKey(xs, key, key(x))|) in es {
      var i :| 0 <= i < |gs| && gs[i].key == key(x);
      assert es[i] == Entry(key(x), |WithKey(xs, key, key(x))|);
    }
  }

  /** One value per group, in group order. */
  function MapGroups<T, U>(gs: seq<Group<T>>, f: Group<T> -> U): (us: seq<U>)
    ensures |us| == |gs|
    ensures forall i :: 0 <= i < |gs| ==> us[i] == f(gs[i])
  {
    seq(|gs|, i requires 0 <= i < |gs| => f(gs[i]))
  }

  /** A column of per-group counts sums to the count over all groups. */
  lemma {:induction false} SumOfMapGroups<T, U>(gs: seq<Group<T>>, f: Group<T> -> U, g: U -> nat, p: T -> bool)
    requires forall i :: 0 <= i < |gs| ==> g(f(gs[i])) == Count(gs[i].items, p)
    ensures SumOf(MapGroups(gs, f), g) == SumCount(gs, p)
    decreases |gs|
  {
    if |gs| > 0 {
      assert forall i :: 0 <= i < |gs| - 1 ==> gs[1..][i] == gs[i + 1];
      SumOfMapGroups(gs[1..], f, g, p);
      assert MapGroups(gs, f)[1..] == MapGroups(gs[1..], f);
    }
  }
}
