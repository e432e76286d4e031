/** The per-target statistics block of the finalisation step: the latency
    samples are sorted ascending in place, then nearest-rank statistics are
    read off the sorted samples. */
module Statistics {
  import Sequences

  predicate Sorted(s: seq<nat>) {
    forall i, j :: 0 <= i < j < |s| ==> s[i] <= s[j]
  }

  /** The value of one latency sample, as summed for the mean. */
  function Latency(x: nat): nat { x }

  function Total(s: seq<nat>): (r: nat)
    ensures s == [] ==> r == 0
    ensures forall i :: 0 <= i < |s| ==> s[i] <= r
  {
    Sequences.SumOfEach(s, Latency);
    Sequences.SumOf(s, Latency)
  }

  /** Nearest-rank indices: `floor(n / 2)`, `floor(n * 0.95)` and `floor(n * 0.99)`,
      the last two written as integer divisions. */
  function MedianIndex(n: nat): (r: nat)
    ensures 2 * r <= n < 2 * r + 2
    ensures n > 0 ==> r < n
  {
    n / 2
  }

  function P95Index(n: nat): (r: nat)
    ensures 100 * r <= 95 * n < 100 * r + 100
    ensures n > 0 ==> r < n
  {
    95 * n / 100
  }

  function P99Index(n: nat): (r: nat)
    ensures 100 * r <= 99 * n < 100 * r + 100
    ensures n > 0 ==> r < n
  {
    99 * n / 100
  }

  /** Every rank index of a non-empty sample list is in bounds without clamping,
      and the ranks are ordered. */
  lemma RankIndicesInBounds(n: nat)
    requires n > 0
    ensures MedianIndex(n) <= P95Index(n) <= P99Index(n) < n
  {
  }

  /** The statistics object; the mean is kept as the sum of the samples and
      their count (`avgResponseTime` is their quotient). */
  datatype Stats = Stats(
    minResponseTime: nat,
    maxResponseTime: nat,
    sumResponseTime: nat,
    sampleCount: nat,
    medianResponseTime: nat,
    p95ResponseTime: nat,
    p99ResponseTime: nat)

  /** The statistics read off a sorted, non-empty sample list. */
  function StatsOfSorted(s: seq<nat>): (st: Stats)
    requires |s| > 0
    ensures st.sampleCount == |s|
    ensures Sorted(s) ==>
      st.minResponseTime <= st.medianResponseTime <= st.p95ResponseTime
        <= st.p99ResponseTime <= st.maxResponseTime
  {
    var n := |s|;
    RankIndicesInBounds(n);
    Stats(s[0], s[n - 1], Total(s), n, s[MedianIndex(n)], s[P95Index(n)], s[P99Index(n)])
  }

  /** Two sorted arrangements of the same multiset start with the same sample. */
  lemma SortedSameHead(a: seq<nat>, b: seq<nat>)
    requires Sorted(a) && Sorted(b) && multiset(a) == multiset(b) && |a| > 0 && |b| > 0
    ensures a[0] == b[0]
  {
    assert a[0] in multiset(b) && b[0] in multiset(a);
    var i :| 0 <= i < |b| && b[i] == a[0];
    var j :| 0 <= j < |a| && a[j] == b[0];
  }

  lemma TailMultiset(a: seq<nat>)
    requires |a| > 0
    ensures multiset(a[1..]) == multiset(a) - multiset{a[0]}
  {
    assert a == [a[0]] + a[1..];
  }

  /** The only sorted arrangement of a multiset of samples. */
  lemma {:induction false} SortedUnique(a: seq<nat>, b: seq<nat>)
    requires Sorted(a) && Sorted(b) && multiset(a) == multiset(b)
    ensures a == b
    decreases |a|
  {
    assert |a| == |multiset(a)| == |multiset(b)| == |b|;
    if a != [] {
      SortedSameHead(a, b);
      TailMultiset(a);
      TailMultiset(b);
      SortedUnique(a[1..], b[1..]);
      assert a == [a[0]] + a[1..] && b == [b[0]] + b[1..];
    }
  }

  lemma MulMonotone(a: nat, b: nat, c: nat)
    requires a <= b
    ensures a * c <= b * c
  {
  }

  lemma {:induction false} TotalBounds(s: seq<nat>)
    requires Sorted(s) && |s| > 0
    ensures s[0] * |s| <= Total(s) <= s[|s| - 1] * |s|
  {
    var n := |s|;
    if n > 1 {
      var s' := s[..n - 1];
      var lo, hi, prevHi := s[0], s[n - 1], s[n - 2];
      assert Sorted(s') && s'[0] == lo && s'[n - 2] == prevHi;
      TotalBounds(s');
      assert Total(s) == Total(s') + hi;
      assert prevHi <= hi;
      MulMonotone(prevHi, hi, n - 1);
      assert lo * n == lo * (n - 1) + lo;
      assert hi * n == hi * (n - 1) + hi;
    } else {
      assert s == [s[0]];
      Sequences.SumOfSingleton(s[0], Latency);
    }
  }

  /** What the statistics say about the samples they were computed from:
      `sorted` is the sorted arrangement of `samples`. */
  lemma DescribesSamples(samples: seq<nat>, sorted: seq<nat>)
    requires Sorted(sorted) && multiset(sorted) == multiset(samples) && |samples| > 0
    ensures var st := StatsOfSorted(sorted);
      && st.sampleCount == |samples|
      && st.sumResponseTime == Total(samples)
      && (forall i :: 0 <= i < |samples| ==> st.minResponseTime <= samples[i] <= st.maxResponseTime)
      && st.minResponseTime in samples && st.maxResponseTime in samples
      && st.medianResponseTime in samples && st.p95ResponseTime in samples
      && st.p99ResponseTime in samples
      && st.minResponseTime * st.sampleCount <= st.sumResponseTime
      && st.sumResponseTime <= st.maxResponseTime * st.sampleCount
  {
    var n := |sorted|;
    assert n == |multiset(sorted)| == |samples|;
    RankIndicesInBounds(n);
    Sequences.SumOfPermutation(sorted, samples, Latency);
    TotalBounds(sorted);
    forall i | 0 <= i < |samples|
      ensures sorted[0] <= samples[i] <= sorted[n - 1]
    {
      assert samples[i] in multiset(sorted);
    }
    forall k | 0 <= k < n
      ensures sorted[k] in samples
    {
      assert sorted[k] in multiset(samples);
    }
  }

  /** The statistics depend only on the multiset of samples: neither the order
      in which samples arrived nor re-sorting an already sorted list changes them. */
  lemma StatsIgnoreArrivalOrder(a: seq<nat>, b: seq<nat>, sortedA: seq<nat>, sortedB: seq<nat>)
    requires multiset(a) == multiset(b) && |a| > 0
    requires Sorted(sortedA) && multiset(sortedA) == multiset(a)
    requires Sorted(sortedB) && multiset(sortedB) == multiset(b)
    ensures |sortedA| > 0 && |sortedB| > 0
    ensures StatsOfSorted(sortedA) == StatsOfSorted(sortedB)
  {
    assert |sortedA| == |multiset(a)| && |sortedB| == |multiset(b)|;
    SortedUnique(sortedA, sortedB);
  }

  /** When every sample has the same latency, every statistic is that latency. */
  lemma {:induction false} UniformSamples(s: seq<nat>, v: nat)
    requires |s| > 0 && forall i :: 0 <= i < |s| ==> s[i] == v
    ensures Sorted(s)
    ensures Total(s) == v * |s|
    ensures StatsOfSorted(s) == Stats(v, v, Total(s), |s|, v, v, v)
  {
    RankIndicesInBounds(|s|);
    Sequences.SumOfConstant(s, Latency, v);
  }

  lemma FiveSampleTotal()
    ensures Total([10, 20, 30, 40, 50]) == 150
  {
    var s: seq<nat> := [10, 20, 30, 40, 50];
    assert Total(s[..1]) == 10 by {
      assert s[..1][..0] == [];
      assert Total(s[..1]) == Sequences.SumOf(s[..1][..0], Latency) + Latency(s[0]);
    }
    assert Total(s[..2]) == 30 by { assert s[..2][..1] == s[..1]; }
    assert Total(s[..3]) == 60 by { assert s[..3][..2] == s[..2]; }
    assert Total(s[..4]) == 100 by { assert s[..4][..3] == s[..3]; }
    assert Total(s) == 150 by { assert s[..4] == s[..|s| - 1]; }
  }

  /** The statistics of the sorted samples 10, 20, 30, 40, 50. */
  lemma FiveSampleStats()
    ensures StatsOfSorted([10, 20, 30, 40, 50]) == Stats(10, 50, 150, 5, 30, 50, 50)
  {
    FiveSampleTotal();
    var s: seq<nat> := [10, 20, 30, 40, 50];
    assert MedianIndex(5) == 2 && P95Index(5) == 4 && P99Index(5) == 4;
    assert s[2] == 30 && s[4] == 50;
  }

  /** 10, 20, 30, 40, 50 is the sorted arrangement of 50, 10, 30, 20, 40. */
  lemma FiveSampleSorted()
    ensures Sorted([10, 20, 30, 40, 50])
    ensures multiset([10, 20, 30, 40, 50]) == multiset([50, 10, 30, 20, 40])
  {
    FiveSampleOrdered();
    FiveSampleShuffled();
  }

  lemma FiveSampleOrdered()
    ensures Sorted([10, 20, 30, 40, 50])
  {
    var s: seq<nat> := [10, 20, 30, 40, 50];
    forall i, j | 0 <= i < j < |s| ensures s[i] <= s[j] {
      assert s[i] == 10 * (i + 1) && s[j] == 10 * (j + 1);
    }
  }

  lemma FiveSampleShuffled()
    ensures multiset([10, 20, 30, 40, 50]) == multiset([50, 10, 30, 20, 40])
  {
    assert multiset([50, 10, 30, 20, 40]) == multiset{10, 20, 30, 40, 50};
  }

  /** The five samples 50, 10, 30, 20, 40, in any sorted arrangement: minimum 10,
      maximum 50, mean 150 / 5 = 30, median 30 (rank 2), p95 and p99 50 (rank 4). */
  lemma FiveSampleExample(sorted: seq<nat>)
    requires Sorted(sorted) && multiset(sorted) == multiset([50, 10, 30, 20, 40])
    ensures StatsOfSorted(sorted) == Stats(10, 50, 150, 5, 30, 50, 50)
  {
    var expected: seq<nat> := [10, 20, 30, 40, 50];
    FiveSampleSorted();
    SortedUnique(sorted, expected);
    FiveSampleStats();
  }

  method Swap(a: array<nat>, i: nat, j: nat)
    requires i < a.Length && j < a.Length
    modifies a
    ensures a[..] == old(a[..])[i := old(a[j])][j := old(a[i])]
    ensures multiset(a[..]) == old(multiset(a[..]))
  {
    a[i], a[j] := a[j], a[i];
  }

  /** `responseTimes.sort((a, b) => a - b)`: sorts the samples ascending in place. */
  method SortInPlace(a: array<nat>)
    modifies a
    ensures Sorted(a[..])
    ensures multiset(a[..]) == old(multiset(a[..]))
  {
    var i := 0;
    while i < a.Length
      invariant 0 <= i <= a.Length
      invariant forall p, q :: 0 <= p < q < i ==> a[p] <= a[q]
      invariant multiset(a[..]) == old(multiset(a[..]))
    {
      var j := i;
      while j > 0 && a[j - 1] > a[j]
        invariant 0 <= j <= i
        invariant forall p, q :: 0 <= p < q <= i && p != j && q != j ==> a[p] <= a[q]
        invariant forall q :: j < q <= i ==> a[j] < a[q]
        invariant multiset(a[..]) == old(multiset(a[..]))
      {
        Swap(a, j - 1, j);
        j := j - 1;
      }
      i := i + 1;
    }
  }

  /** The statistics block for one target with at least one sample: sort the
      samples, then read minimum, maximum, sum, median, p95 and p99. */
  method SortAndSummarize(samples: seq<nat>) returns (sorted: seq<nat>, stats: Stats)
    requires |samples| > 0
    ensures Sorted(sorted) && multiset(sorted) == multiset(samples)
    ensures |sorted| == |samples|
    ensures stats == StatsOfSorted(sorted)
    ensures stats.sumResponseTime == Total(samples)
    ensures forall i :: 0 <= i < |samples| ==> stats.minResponseTime <= samples[i] <= stats.maxResponseTime
  {
    var a := new nat[|samples|](i requires 0 <= i < |samples| => samples[i]);
    assert a[..] == samples;
    SortInPlace(a);
    sorted := a[..];
    assert |sorted| == |multiset(sorted)| == |samples|;
    DescribesSamples(samples, sorted);
    stats := StatsOfSorted(sorted);
  }
}
