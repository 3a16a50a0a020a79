/** The array methods the source leans on (`filter`, `map`, `reduce` with a
    sum, `filter(...).length`), as functions over sequences, with the facts
    about them that the rest of the model uses. */
module Seqs {

  /** `s.filter(p)`: the elements satisfying `p`, in their original order. */
  function Filter<T>(p: T -> bool, s: seq<T>): (r: seq<T>)
    ensures |r| <= |s|
    ensures forall i :: 0 <= i < |r| ==> r[i] in s && p(r[i])
    ensures forall i :: 0 <= i < |s| && p(s[i]) ==> s[i] in r
  {
    if s == [] then [] else (if p(s[0]) then [s[0]] else []) + Filter(p, s[1..])
  }

  /** Filtering distributes over concatenation: it keeps relative order. */
  lemma {:induction false} FilterAppend<T>(p: T -> bool, a: seq<T>, b: seq<T>)
    ensures Filter(p, a + b) == Filter(p, a) + Filter(p, b)
    decreases |a|
  {
    if a == [] {
      assert a + b == b;
    } else {
      assert (a + b)[1..] == a[1..] + b;
      FilterAppend(p, a[1..], b);
    }
  }

  /** When every element passes, filtering changes nothing. */
  lemma {:induction false} FilterAllKept<T>(p: T -> bool, s: seq<T>)
    requires forall i :: 0 <= i < |s| ==> p(s[i])
    ensures Filter(p, s) == s
    decreases |s|
  {
    if s != [] {
      FilterAllKept(p, s[1..]);
    }
  }

  /** When no element passes, nothing is kept. */
  lemma {:induction false} FilterNoneKept<T>(p: T -> bool, s: seq<T>)
    requires forall i :: 0 <= i < |s| ==> !p(s[i])
    ensures Filter(p, s) == []
    decreases |s|
  {
    if s != [] {
      FilterNoneKept(p, s[1..]);
    }
  }

  /** Filtering twice with the same predicate is filtering once. */
  lemma FilterIdempotent<T>(p: T -> bool, s: seq<T>)
    ensures Filter(p, Filter(p, s)) == Filter(p, s)
  {
    var r := Filter(p, s);
    FilterAllKept(p, r);
  }

  /** A predicate and its negation split a sequence: the two filter counts add up to its length. */
  lemma {:induction false} FilterPartition<T>(p: T -> bool, q: T -> bool, s: seq<T>)
    requires forall x :: q(x) == !p(x)
    ensures |Filter(p, s)| + |Filter(q, s)| == |s|
    decreases |s|
  {
    if s != [] {
      FilterPartition(p, q, s[1..]);
    }
  }

  /** When every element kept from `a` has its counterpart in `b` kept too,
      `b` keeps at least as many elements. */
  lemma {:induction false} FilterCountMonotone<T>(p: T -> bool, a: seq<T>, b: seq<T>)
    requires |a| == |b|
    requires forall i :: 0 <= i < |a| && p(a[i]) ==> p(b[i])
    ensures |Filter(p, a)| <= |Filter(p, b)|
    decreases |a|
  {
    if a != [] {
      FilterCountMonotone(p, a[1..], b[1..]);
    }
  }

  /** `s.map(f)`. */
  function MapSeq<T, U>(f: T -> U, s: seq<T>): (r: seq<U>)
    ensures |r| == |s|
    ensures forall i :: 0 <= i < |s| ==> r[i] == f(s[i])
  {
    if s == [] then [] else [f(s[0])] + MapSeq(f, s[1..])
  }

  /** `s.reduce((acc, x) => acc + f(x), 0)`. */
  function SumOf<T>(f: T -> int, s: seq<T>): int
  {
    if s == [] then 0 else f(s[0]) + SumOf(f, s[1..])
  }

  lemma {:induction false} SumOfAppend<T>(f: T -> int, a: seq<T>, b: seq<T>)
    ensures SumOf(f, a + b) == SumOf(f, a) + SumOf(f, b)
    decreases |a|
  {
    if a == [] {
      assert a + b == b;
    } else {
      assert (a + b)[1..] == a[1..] + b;
      SumOfAppend(f, a[1..], b);
    }
  }

  /** A sum does not depend on the order of the summands. */
  lemma {:induction false} SumOfPermutation<T>(f: T -> int, a: seq<T>, b: seq<T>)
    requires multiset(a) == multiset(b)
    ensures SumOf(f, a) == SumOf(f, b)
    decreases |a|
  {
    if a == [] {
      assert |b| == |multiset(b)| == 0;
    } else {
      var x := a[0];
      assert x in multiset(b);
      var i :| 0 <= i < |b| && b[i] == x;
      var rest := b[..i] + b[i + 1..];
      PermutationTails(a, b, i);
      SumOfRemove(f, b, i);
      SumOfPermutation(f, a[1..], rest);
    }
  }

  /** Matching the head of `a` with the equal element at `i` in `b` leaves
      two tails that are again permutations of each other. */
  lemma PermutationTails<T>(a: seq<T>, b: seq<T>, i: int)
    requires a != [] && 0 <= i < |b| && b[i] == a[0] && multiset(a) == multiset(b)
    ensures multiset(a[1..]) == multiset(b[..i] + b[i + 1..])
  {
    MultisetRemove(b, i);
    assert a == [a[0]] + a[1..];
    assert multiset(a) == multiset{a[0]} + multiset(a[1..]);
  }

  /** Taking out the term at `i` takes its value out of the sum. */
  lemma {:induction false} SumOfRemove<T>(f: T -> int, b: seq<T>, i: int)
    requires 0 <= i < |b|
    ensures SumOf(f, b) == f(b[i]) + SumOf(f, b[..i] + b[i + 1..])
    decreases i
  {
    var rest := b[..i] + b[i + 1..];
    if i == 0 {
      assert rest == b[1..];
    } else {
      var t := b[1..];
      SumOfRemove(f, t, i - 1);
      assert rest[0] == b[0] && rest[1..] == t[..i - 1] + t[i..];
    }
  }

  /** Taking out the element at `i` takes it out of the multiset. */
  lemma MultisetRemove<T>(b: seq<T>, i: int)
    requires 0 <= i < |b|
    ensures multiset(b[..i] + b[i + 1..]) == multiset(b) - multiset{b[i]}
  {
    var pre, x, post := b[..i], b[i], b[i + 1..];
    assert b == (pre + [x]) + post;
    assert multiset(b) == multiset(pre + [x]) + multiset(post);
    assert multiset(pre + [x]) == multiset(pre) + multiset{x};
    assert multiset(pre + post) == multiset(pre) + multiset(post);
  }

  /** Sums of non-negative terms are non-negative. */
  lemma {:induction false} SumOfNonNegative<T>(f: T -> int, s: seq<T>)
    requires forall i :: 0 <= i < |s| ==> f(s[i]) >= 0
    ensures SumOf(f, s) >= 0
    decreases |s|
  {
    if s != [] {
      SumOfNonNegative(f, s[1..]);
    }
  }

  /** Sums of terms bounded by `hi` are bounded by `hi` times the count. */
  lemma {:induction false} SumOfBounded<T>(f: T -> int, s: seq<T>, hi: int)
    requires forall i :: 0 <= i < |s| ==> f(s[i]) <= hi
    ensures SumOf(f, s) <= hi * |s|
    decreases |s|
  {
    if s != [] {
      SumOfBounded(f, s[1..], hi);
    }
  }
}
