/** Order-preserving filtering and summing over sequences: the `Array.prototype.filter`
    and `reduce` idioms the pipeline uses. */
module Sequences {

  /** The elements of `s` that satisfy `keep`, in their original order. Defined from the
      right so that it follows a loop that pushes onto the end of an array. */
  function Filter<T>(s: seq<T>, keep: T -> bool): seq<T>
  {
    if |s| == 0 then []
    else Filter(s[..|s| - 1], keep) + (if keep(s[|s| - 1]) then [s[|s| - 1]] else [])
  }

  /** Filtering distributes over concatenation: kept elements stay in order. */
  lemma {:induction false} FilterAppend<T>(a: seq<T>, b: seq<T>, keep: T -> bool)
    ensures Filter(a + b, keep) == Filter(a, keep) + Filter(b, keep)
    decreases |b|
  {
    if |b| == 0 {
      assert a + b == a;
    } else {
      var b' := b[..|b| - 1];
      assert (a + b)[..|a + b| - 1] == a + b';
      FilterAppend(a, b', keep);
    }
  }

  /** Filtering a sequence extended by one element extends the result by that
      element exactly when the element satisfies the predicate. */
  lemma FilterSnoc<T>(s: seq<T>, x: T, keep: T -> bool)
    ensures Filter(s + [x], keep) == Filter(s, keep) + if keep(x) then [x] else []
  {
    assert (s + [x])[..|s|] == s;
  }

  /** Filtering a single element keeps it iff it satisfies the predicate. */
  lemma FilterSingleton<T>(x: T, keep: T -> bool)
    ensures Filter([x], keep) == if keep(x) then [x] else []
  {
    assert [x][..0] == [];
  }

  /** An element is kept iff it occurs in the input and satisfies the predicate;
      the result is never longer than the input. */
  lemma {:induction false} FilterMembers<T>(s: seq<T>, keep: T -> bool)
    ensures |Filter(s, keep)| <= |s|
    ensures forall x :: x in Filter(s, keep) <==> x in s && keep(x)
  {
    if |s| > 0 {
      var s' := s[..|s| - 1];
      FilterMembers(s', keep);
      assert s == s' + [s[|s| - 1]];
      forall x ensures x in s <==> x in s' || x == s[|s| - 1] {
      }
    }
  }

  /** Filtering keeps a sequence whole when every element satisfies the predicate. */
  lemma {:induction false} FilterKeepsAll<T>(s: seq<T>, keep: T -> bool)
    requires forall i :: 0 <= i < |s| ==> keep(s[i])
    ensures Filter(s, keep) == s
  {
    if |s| > 0 {
      var s' := s[..|s| - 1];
      assert forall i :: 0 <= i < |s'| ==> s'[i] == s[i];
      FilterKeepsAll(s', keep);
    }
  }

  /** Filtering by a predicate and by its negation splits the input: the two parts
      together are exactly as long as the input. */
  lemma {:induction false} FilterPartition<T>(s: seq<T>, keep: T -> bool, drop: T -> bool)
    requires forall x :: drop(x) == !keep(x)
    ensures |Filter(s, keep)| + |Filter(s, drop)| == |s|
  {
    if |s| > 0 {
      FilterPartition(s[..|s| - 1], keep, drop);
    }
  }

  /** The sum of `size(x)` over the elements of `s`, folded from the left as `reduce` does. */
  function SumOf<T>(s: seq<T>, size: T -> nat): nat
  {
    if |s| == 0 then 0 else SumOf(s[..|s| - 1], size) + size(s[|s| - 1])
  }

  /** The sum of non-negative sizes is zero iff every size is zero. */
  lemma {:induction false} SumOfZero<T>(s: seq<T>, size: T -> nat)
    ensures SumOf(s, size) == 0 <==> forall i :: 0 <= i < |s| ==> size(s[i]) == 0
  {
    if |s| > 0 {
      var s' := s[..|s| - 1];
      SumOfZero(s', size);
      assert forall i :: 0 <= i < |s'| ==> s'[i] == s[i];
    }
  }

  /** Bounds on a sum from bounds on its terms. */
  lemma {:induction false} SumOfBounded<T>(s: seq<T>, size: T -> nat, bound: nat)
    requires forall i :: 0 <= i < |s| ==> size(s[i]) <= bound
    ensures SumOf(s, size) <= bound * |s|
  {
    if |s| > 0 {
      var s' := s[..|s| - 1];
      assert forall i :: 0 <= i < |s'| ==> s'[i] == s[i];
      SumOfBounded(s', size, bound);
    }
  }

  /** Every element that `hit` selects contributes at least one to the sum, so the
      number of selected elements is at most the sum. */
  lemma {:induction false} FilterCountBelowSum<T>(s: seq<T>, hit: T -> bool, size: T -> nat)
    requires forall i :: 0 <= i < |s| && hit(s[i]) ==> size(s[i]) >= 1
    ensures |Filter(s, hit)| <= SumOf(s, size)
  {
    if |s| > 0 {
      var s' := s[..|s| - 1];
      assert forall i :: 0 <= i < |s'| ==> s'[i] == s[i];
      FilterCountBelowSum(s', hit, size);
    }
  }

  /** `f` applied to every element together with its position, in order. */
  function MapIndexed<A, B>(s: seq<A>, f: (A, nat) -> B): (r: seq<B>)
    ensures |r| == |s|
  {
    if |s| == 0 then [] else MapIndexed(s[..|s| - 1], f) + [f(s[|s| - 1], |s| - 1)]
  }

  /** Mapping a prefix one element longer appends that element's image. */
  lemma MapIndexedSnoc<A, B>(s: seq<A>, f: (A, nat) -> B, n: nat)
    requires n < |s|
    ensures MapIndexed(s[..n + 1], f) == MapIndexed(s[..n], f) + [f(s[n], n)]
  {
    assert s[..n + 1][..n] == s[..n];
  }

  /** Element `i` of the mapped sequence is the image of element `i` at position `i`. */
  lemma {:induction false} MapIndexedAt<A, B>(s: seq<A>, f: (A, nat) -> B, i: nat)
    requires i < |s|
    ensures MapIndexed(s, f)[i] == f(s[i], i)
    decreases |s|
  {
    var n := |s| - 1;
    if i < n {
      MapIndexedAt(s[..n], f, i);
      assert s[..n][i] == s[i];
    }
  }

  /** How many of the first `n` elements `keep` selects. */
  function CountKept<T>(s: seq<T>, keep: T -> bool, n: nat): nat
    requires n <= |s|
  {
    if n == 0 then 0 else CountKept(s, keep, n - 1) + if keep(s[n - 1]) then 1 else 0
  }

  /** How many of the first `n` elements `keep` selects and whose position `ok` admits. */
  function CountKeptAnd<T>(s: seq<T>, keep: T -> bool, ok: nat -> bool, n: nat): nat
    requires n <= |s|
  {
    if n == 0 then 0 else CountKeptAnd(s, keep, ok, n - 1) + if keep(s[n - 1]) && ok(n - 1) then 1 else 0
  }

  /** Admitting fewer positions counts no more elements, and no more than `n`. */
  lemma {:induction false} CountKeptAndBelow<T>(s: seq<T>, keep: T -> bool, ok: nat -> bool, n: nat)
    requires n <= |s|
    ensures CountKeptAnd(s, keep, ok, n) <= CountKept(s, keep, n) <= n
  {
    if n > 0 {
      CountKeptAndBelow(s, keep, ok, n - 1);
    }
  }

  /** When every position is admitted, the two counts agree. */
  lemma {:induction false} CountKeptAndAll<T>(s: seq<T>, keep: T -> bool, ok: nat -> bool, n: nat)
    requires n <= |s|
    requires forall i :: 0 <= i < n ==> ok(i)
    ensures CountKeptAnd(s, keep, ok, n) == CountKept(s, keep, n)
  {
    if n > 0 {
      CountKeptAndAll(s, keep, ok, n - 1);
    }
  }

  /** When `keep` selects none of the first `n` elements, nothing is counted. */
  lemma {:induction false} CountKeptAndNone<T>(s: seq<T>, keep: T -> bool, ok: nat -> bool, n: nat)
    requires n <= |s|
    requires forall i :: 0 <= i < n ==> !keep(s[i])
    ensures CountKeptAnd(s, keep, ok, n) == 0
  {
    if n > 0 {
      CountKeptAndNone(s, keep, ok, n - 1);
    }
  }

  /** When `keep` selects none of the first `n` elements, the count is zero. */
  lemma {:induction false} CountKeptNone<T>(s: seq<T>, keep: T -> bool, n: nat)
    requires n <= |s|
    requires forall i :: 0 <= i < n ==> !keep(s[i])
    ensures CountKept(s, keep, n) == 0
  {
    if n > 0 {
      CountKeptNone(s, keep, n - 1);
    }
  }
}
