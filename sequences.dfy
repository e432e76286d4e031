/** Facts about sequences used by the aggregator and the statistics: sums of a
    per-element measure, and how they and multisets behave under permutation. */
module Sequences {

  /** The sum of `f` over the elements of `s`, accumulated from the front. */
  function SumOf<T>(s: seq<T>, f: T -> nat): nat
  {
    if s == [] then 0 else SumOf(s[..|s| - 1], f) + f(s[|s| - 1])
  }

  lemma AppendAssoc<T>(a: seq<T>, b: seq<T>, c: seq<T>)
    ensures a + (b + c) == (a + b) + c
  {
  }

  /** Each term is at most the sum. */
  lemma {:induction false} SumOfEach<T>(s: seq<T>, f: T -> nat)
    ensures forall i :: 0 <= i < |s| ==> f(s[i]) <= SumOf(s, f)
  {
    if s != [] {
      var s' := s[..|s| - 1];
      SumOfEach(s', f);
      forall i | 0 <= i < |s| - 1 ensures f(s[i]) <= SumOf(s, f) {
        assert s[i] == s'[i];
      }
    }
  }

  lemma {:induction false} SumOfAppend<T>(a: seq<T>, b: seq<T>, f: T -> nat)
    ensures SumOf(a + b, f) == SumOf(a, f) + SumOf(b, f)
    decreases |b|
  {
    if b == [] {
      assert a + b == a;
    } else {
      var b' := b[..|b| - 1];
      assert (a + b)[..|a + b| - 1] == a + b';
      SumOfAppend(a, b', f);
    }
  }

  /** Removing the element at `k` from `s` removes one copy of it from the multiset. */
  lemma RemoveAt<T>(s: seq<T>, k: nat)
    requires k < |s|
    ensures multiset(s[..k] + s[k + 1..]) == multiset(s) - multiset{s[k]}
  {
    assert s == s[..k] + [s[k]] + s[k + 1..];
  }

  lemma SumOfSingleton<T>(x: T, f: T -> nat)
    ensures SumOf([x], f) == f(x)
  {
    assert [x][..0] == [];
  }

  lemma SumOfCons<T>(x: T, s: seq<T>, f: T -> nat)
    ensures SumOf([x] + s, f) == f(x) + SumOf(s, f)
  {
    SumOfAppend([x], s, f);
    SumOfSingleton(x, f);
  }

  lemma SumOfSplit<T>(pre: seq<T>, x: T, post: seq<T>, f: T -> nat)
    ensures SumOf(pre + ([x] + post), f) == SumOf(pre + post, f) + f(x)
  {
    SumOfAppend(pre, [x] + post, f);
    SumOfCons(x, post, f);
    SumOfAppend(pre, post, f);
  }

  lemma SplitAt<T>(s: seq<T>, k: nat)
    requires k < |s|
    ensures s == s[..k] + ([s[k]] + s[k + 1..])
  {
  }

  lemma SumOfRemoveAt<T>(s: seq<T>, k: nat, f: T -> nat)
    requires k < |s|
    ensures SumOf(s, f) == SumOf(s[..k] + s[k + 1..], f) + f(s[k])
  {
    SplitAt(s, k);
    SumOfSplit(s[..k], s[k], s[k + 1..], f);
  }

  /** When `b` is a permutation of a non-empty `a`, some position of `b` holds the
      last element of `a`, and removing both leaves permutations of each other. */
  lemma MatchLast<T>(a: seq<T>, b: seq<T>) returns (k: nat)
    requires a != [] && multiset(a) == multiset(b)
    ensures k < |b| && b[k] == a[|a| - 1]
    ensures multiset(a[..|a| - 1]) == multiset(b[..k] + b[k + 1..])
  {
    var x := a[|a| - 1];
    assert a == a[..|a| - 1] + [x];
    assert multiset(a[..|a| - 1]) == multiset(a) - multiset{x};
    assert x in multiset(b);
    k :| 0 <= k < |b| && b[k] == x;
    RemoveAt(b, k);
  }

  /** A sum over a sequence does not depend on the order of its elements. */
  lemma {:induction false} SumOfPermutation<T>(a: seq<T>, b: seq<T>, f: T -> nat)
    requires multiset(a) == multiset(b)
    ensures SumOf(a, f) == SumOf(b, f)
    decreases |a|
  {
    if a == [] {
      assert b == [] by { assert |multiset(b)| == |b|; }
    } else {
      var k := MatchLast(a, b);
      SumOfPermutation(a[..|a| - 1], b[..k] + b[k + 1..], f);
      SumOfRemoveAt(b, k, f);
    }
  }

  /** A measure that is `k` on every element sums to `k` times the length. */
  lemma {:induction false} SumOfConstant<T>(s: seq<T>, f: T -> nat, k: nat)
    requires forall i :: 0 <= i < |s| ==> f(s[i]) == k
    ensures SumOf(s, f) == k * |s|
  {
    if s != [] {
      SumOfConstant(s[..|s| - 1], f, k);
      assert k * |s| == k * (|s| - 1) + k;
    }
  }
}
