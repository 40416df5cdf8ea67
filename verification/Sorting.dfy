/**
 * `Array.prototype.sort` and `filter` as the handlers use them: a stable sort by a
 * comparator, given here by `le(a, b)`, meaning that the comparator's answer is not positive.
 */
module Sorting {

  ghost predicate TotalPreorder<T(!new)>(le: (T, T) -> bool) {
    && (forall a, b :: le(a, b) || le(b, a))
    && (forall a, b, c :: le(a, b) && le(b, c) ==> le(a, c))
  }

  ghost predicate SortedBy<T>(le: (T, T) -> bool, xs: seq<T>) {
    forall i, j | 0 <= i < j < |xs| :: le(xs[i], xs[j])
  }

  function Filter<T>(p: T -> bool, xs: seq<T>): seq<T> {
    if xs == [] then []
    else if p(xs[0]) then [xs[0]] + Filter(p, xs[1..])
    else Filter(p, xs[1..])
  }

  lemma {:induction false} FilterMembers<T(!new)>(p: T -> bool, xs: seq<T>)
    ensures |Filter(p, xs)| <= |xs|
    ensures forall x :: x in Filter(p, xs) <==> x in xs && p(x)
  {
    if xs != [] {
      FilterMembers(p, xs[1..]);
    }
  }

  /** Puts `x`, which preceded all of `xs`, before every element that is not below it. */
  function Insert<T>(le: (T, T) -> bool, x: T, xs: seq<T>): (r: seq<T>)
    ensures |r| == |xs| + 1
  {
    if xs == [] || le(x, xs[0]) then [x] + xs else [xs[0]] + Insert(le, x, xs[1..])
  }

  function StableSort<T>(le: (T, T) -> bool, xs: seq<T>): (r: seq<T>)
    ensures |r| == |xs|
  {
    if xs == [] then [] else Insert(le, xs[0], StableSort(le, xs[1..]))
  }

  lemma {:induction false} InsertPermutes<T(!new)>(le: (T, T) -> bool, x: T, xs: seq<T>)
    ensures multiset(Insert(le, x, xs)) == multiset([x] + xs)
    ensures forall y :: y in Insert(le, x, xs) <==> y == x || y in xs
  {
    if !(xs == [] || le(x, xs[0])) {
      InsertPermutes(le, x, xs[1..]);
      assert xs == [xs[0]] + xs[1..];
    }
  }

  lemma {:induction false} InsertSorts<T(!new)>(le: (T, T) -> bool, x: T, xs: seq<T>)
    requires TotalPreorder(le) && SortedBy(le, xs)
    ensures SortedBy(le, Insert(le, x, xs))
  {
    if xs == [] || le(x, xs[0]) {
    } else {
      var rest := Insert(le, x, xs[1..]);
      InsertSorts(le, x, xs[1..]);
      InsertPermutes(le, x, xs[1..]);
      forall j | 0 <= j < |rest| ensures le(xs[0], rest[j]) {
        assert rest[j] in rest;
        if rest[j] != x {
          var k :| 0 <= k < |xs[1..]| && xs[1..][k] == rest[j];
          assert le(xs[0], xs[k + 1]);
        }
      }
    }
  }

  /** The sort only reorders. */
  lemma {:induction false} SortPermutes<T(!new)>(le: (T, T) -> bool, xs: seq<T>)
    ensures multiset(StableSort(le, xs)) == multiset(xs)
    ensures forall y :: y in StableSort(le, xs) <==> y in xs
  {
    if xs != [] {
      SortPermutes(le, xs[1..]);
      InsertPermutes(le, xs[0], StableSort(le, xs[1..]));
      assert xs == [xs[0]] + xs[1..];
    }
  }

  lemma {:induction false} SortSorts<T(!new)>(le: (T, T) -> bool, xs: seq<T>)
    requires TotalPreorder(le)
    ensures SortedBy(le, StableSort(le, xs))
  {
    if xs != [] {
      SortSorts(le, xs[1..]);
      InsertSorts(le, xs[0], StableSort(le, xs[1..]));
    }
  }

  /** No two elements have the same key. */
  ghost predicate DistinctBy<T, K>(key: T -> K, xs: seq<T>) {
    forall i, j | 0 <= i < j < |xs| :: key(xs[i]) != key(xs[j])
  }

  lemma DistinctCons<T, K>(key: T -> K, x: T, xs: seq<T>)
    ensures DistinctBy(key, [x] + xs) <==> DistinctBy(key, xs) && forall y | y in xs :: key(y) != key(x)
  {
    var all := [x] + xs;
    assert forall j | 0 <= j < |xs| :: all[j + 1] == xs[j];
    if DistinctBy(key, all) {
      forall y | y in xs ensures key(y) != key(x) {
        var j :| 0 <= j < |xs| && xs[j] == y;
        assert key(all[0]) != key(all[j + 1]);
      }
      forall i, j | 0 <= i < j < |xs| ensures key(xs[i]) != key(xs[j]) {
        assert key(all[i + 1]) != key(all[j + 1]);
      }
    }
  }

  lemma {:induction false} InsertDistinct<T(!new), K>(le: (T, T) -> bool, key: T -> K, x: T, xs: seq<T>)
    requires DistinctBy(key, [x] + xs)
    ensures DistinctBy(key, Insert(le, x, xs))
  {
    DistinctCons(key, x, xs);
    if !(xs == [] || le(x, xs[0])) {
      var tail := xs[1..];
      assert xs == [xs[0]] + tail;
      DistinctCons(key, xs[0], tail);
      DistinctCons(key, x, tail);
      InsertDistinct(le, key, x, tail);
      InsertPermutes(le, x, tail);
      DistinctCons(key, xs[0], Insert(le, x, tail));
    }
  }

  /** Sorting keeps the elements apart. */
  lemma {:induction false} SortDistinct<T(!new), K>(le: (T, T) -> bool, key: T -> K, xs: seq<T>)
    requires DistinctBy(key, xs)
    ensures DistinctBy(key, StableSort(le, xs))
  {
    if xs != [] {
      var tail := xs[1..];
      assert xs == [xs[0]] + tail;
      DistinctCons(key, xs[0], tail);
      SortDistinct(le, key, tail);
      SortPermutes(le, tail);
      DistinctCons(key, xs[0], StableSort(le, tail));
      InsertDistinct(le, key, xs[0], StableSort(le, tail));
    }
  }

  lemma {:induction false} FilterConcat<T>(p: T -> bool, xs: seq<T>, ys: seq<T>)
    ensures Filter(p, xs + ys) == Filter(p, xs) + Filter(p, ys)
  {
    if xs == [] {
      assert xs + ys == ys;
    } else {
      FilterConcat(p, xs[1..], ys);
      assert (xs + ys)[1..] == xs[1..] + ys && (xs + ys)[0] == xs[0];
    }
  }

  /** Filtering keeps any relation that holds between earlier and later elements. */
  lemma {:induction false} FilterKeepsOrder<T(!new)>(le: (T, T) -> bool, p: T -> bool, xs: seq<T>)
    requires SortedBy(le, xs)
    ensures SortedBy(le, Filter(p, xs))
  {
    if xs != [] {
      FilterKeepsOrder(le, p, xs[1..]);
      FilterMembers(p, xs[1..]);
      var rest := Filter(p, xs[1..]);
      forall j | 0 <= j < |rest| ensures le(xs[0], rest[j]) {
        assert rest[j] in xs[1..];
        var k :| 0 <= k < |xs[1..]| && xs[1..][k] == rest[j];
        assert le(xs[0], xs[k + 1]);
      }
    }
  }

  /** And the relation among the kept elements can be read off the filtered list. */
  lemma {:induction false} FilterOrders<T(!new)>(le: (T, T) -> bool, p: T -> bool, xs: seq<T>, i: nat, j: nat)
    requires i < j < |xs| && p(xs[i]) && p(xs[j]) && SortedBy(le, Filter(p, xs))
    ensures le(xs[i], xs[j])
  {
    var rest := Filter(p, xs[1..]);
    assert SortedBy(le, rest) by {
      if p(xs[0]) {
        assert forall k | 0 <= k < |rest| :: Filter(p, xs)[k + 1] == rest[k];
      }
    }
    if i > 0 {
      FilterOrders(le, p, xs[1..], i - 1, j - 1);
    } else {
      FilterMembers(p, xs[1..]);
      assert xs[1..][j - 1] == xs[j];
      var k :| 0 <= k < |rest| && rest[k] == xs[j];
      assert Filter(p, xs) == [xs[0]] + rest;
      assert le(Filter(p, xs)[0], Filter(p, xs)[k + 1]);
    }
  }

  /** Elements the comparator cannot tell apart. */
  ghost predicate OneClass<T(!new)>(le: (T, T) -> bool, p: T -> bool) {
    forall a, b :: p(a) && p(b) ==> le(a, b)
  }

  lemma {:induction false} InsertStable<T(!new)>(le: (T, T) -> bool, p: T -> bool, x: T, xs: seq<T>)
    requires OneClass(le, p)
    ensures Filter(p, Insert(le, x, xs)) == Filter(p, [x] + xs)
  {
    if xs == [] || le(x, xs[0]) {
    } else {
      var rest := Insert(le, x, xs[1..]);
      InsertStable(le, p, x, xs[1..]);
      assert ([xs[0]] + rest)[1..] == rest;
      assert Filter(p, [xs[0]] + rest) == Filter(p, [xs[0]]) + Filter(p, rest) by { FilterConcat(p, [xs[0]], rest); }
      FilterConcat(p, [x], xs[1..]);
      FilterConcat(p, [x], xs);
      FilterConcat(p, [xs[0]], xs[1..]);
      assert xs == [xs[0]] + xs[1..];
      assert !(p(x) && p(xs[0]));
    }
  }

  /** Ties keep the order they came in. */
  lemma {:induction false} SortStable<T(!new)>(le: (T, T) -> bool, p: T -> bool, xs: seq<T>)
    requires OneClass(le, p)
    ensures Filter(p, StableSort(le, xs)) == Filter(p, xs)
  {
    if xs != [] {
      var tail := StableSort(le, xs[1..]);
      SortStable(le, p, xs[1..]);
      InsertStable(le, p, xs[0], tail);
      FilterConcat(p, [xs[0]], tail);
      FilterConcat(p, [xs[0]], xs[1..]);
      assert xs == [xs[0]] + xs[1..];
    }
  }

  /** Sorting a sorted list changes nothing. */
  lemma {:induction false} SortIdentity<T>(le: (T, T) -> bool, xs: seq<T>)
    requires SortedBy(le, xs)
    ensures StableSort(le, xs) == xs
  {
    if |xs| > 1 {
      SortIdentity(le, xs[1..]);
      assert le(xs[0], xs[1]);
      assert xs == [xs[0]] + xs[1..];
    }
  }
}
