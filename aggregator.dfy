/** The results table of a load-test run and the two operations on it:
    recording one outcome (`processResult`) and the final statistics pass
    (`finalizeResults`). Counter, sample and error bookkeeping are exact;
    console logging and the report file are not modelled. */
module Aggregator {
  import opened Wrappers
  import opened Outcomes
  import Sequences
  import Statistics

  /** A target URL. */
  type Target = string

  /** An ISO-8601 time stamp, supplied from outside (the clock is not modelled). */
  type Timestamp = string

  /** The four counters kept both for the run and for each target. */
  datatype Counters = Counters(
    totalRequests: nat,
    successfulRequests: nat,
    failedRequests: nat,
    rateLimited: nat)

  const NoRequests := Counters(0, 0, 0, 0)

  /** Every request is either a success or a failure; rate-limiting is a tag
      on some of them, not a third bucket. */
  predicate Consistent(c: Counters) {
    && c.totalRequests == c.successfulRequests + c.failedRequests
    && c.rateLimited <= c.totalRequests
  }

  /** The counter updates made for one outcome. */
  function Tally(c: Counters, o: Outcome): (r: Counters)
    ensures r.totalRequests == c.totalRequests + 1
    ensures r.successfulRequests + r.failedRequests == c.successfulRequests + c.failedRequests + 1
    ensures o.success <==> r.successfulRequests > c.successfulRequests
    ensures o.rateLimited <==> r.rateLimited > c.rateLimited
    ensures r.rateLimited <= c.rateLimited + 1
    ensures r.successfulRequests >= c.successfulRequests && r.failedRequests >= c.failedRequests
    ensures r.rateLimited >= c.rateLimited
    ensures Consistent(c) ==> Consistent(r)
  {
    Counters(
      c.totalRequests + 1,
      c.successfulRequests + (if o.success then 1 else 0),
      c.failedRequests + (if o.success then 0 else 1),
      c.rateLimited + (if o.rateLimited then 1 else 0))
  }

  function Add(a: Counters, b: Counters): Counters {
    Counters(
      a.totalRequests + b.totalRequests,
      a.successfulRequests + b.successfulRequests,
      a.failedRequests + b.failedRequests,
      a.rateLimited + b.rateLimited)
  }

  datatype Summary = Summary(startTime: Option<Timestamp>, endTime: Option<Timestamp>, counts: Counters)

  /** One entry of a target's `errors` list. */
  datatype ErrorRecord = ErrorRecord(time: Timestamp, statusCode: int, error: Option<ErrorDetail>)

  /** One target's record of `apiResults`. */
  datatype ApiResult = ApiResult(
    counts: Counters,
    responseTimesMs: seq<nat>,
    errors: seq<ErrorRecord>,
    stats: Option<Statistics.Stats>)

  const EmptyApiResult := ApiResult(NoRequests, [], [], None)

  /** The invariant of one target's record: consistent counters, one latency
      sample per request and one error record per failure. */
  predicate Coherent(r: ApiResult) {
    && Consistent(r.counts)
    && |r.responseTimesMs| == r.counts.totalRequests
    && |r.errors| == r.counts.failedRequests
  }

  /** The changes `processResult` makes to the record of the target it is called for. */
  function Record(r: ApiResult, o: Outcome, time: Timestamp): (r': ApiResult)
    ensures r'.counts == Tally(r.counts, o)
    ensures |r'.responseTimesMs| == |r.responseTimesMs| + 1
    ensures r'.responseTimesMs[..|r.responseTimesMs|] == r.responseTimesMs
    ensures r'.responseTimesMs[|r.responseTimesMs|] == o.responseTime
    ensures o.success ==> r'.errors == r.errors
    ensures !o.success ==> |r'.errors| == |r.errors| + 1 && r'.errors[..|r.errors|] == r.errors
    ensures !o.success ==> r'.errors[|r.errors|] == ErrorRecord(time, o.statusCode, o.error)
    ensures r'.stats == r.stats
  {
    ApiResult(
      Tally(r.counts, o),
      r.responseTimesMs + [o.responseTime],
      if o.success then r.errors else r.errors + [ErrorRecord(time, o.statusCode, o.error)],
      r.stats)
  }

  /** Recording one outcome keeps a record coherent. */
  lemma RecordKeepsCoherent(r: ApiResult, o: Outcome, time: Timestamp)
    requires Coherent(r)
    ensures Coherent(Record(r, o, time))
  {
  }

  // ---------------------------------------------------------------------------
  // Sequences of processed outcomes

  /** One call of `processResult`: the target, the outcome and the time stamp
      given to an error record. */
  datatype Entry = Entry(api: Target, result: Outcome, time: Timestamp)

  function Targets(log: seq<Entry>): (ts: seq<Target>)
    ensures |ts| == |log|
  {
    if log == [] then [] else Targets(log[..|log| - 1]) + [log[|log| - 1].api]
  }

  /** The entries for target `t`, in the order they were processed. */
  function ForTarget(log: seq<Entry>, t: Target): seq<Entry> {
    if log == [] then []
    else ForTarget(log[..|log| - 1], t) + (if log[|log| - 1].api == t then [log[|log| - 1]] else [])
  }

  /** The counters after processing `log` in order, starting from `c`. */
  function TallyLog(c: Counters, log: seq<Entry>): Counters {
    if log == [] then c else Tally(TallyLog(c, log[..|log| - 1]), log[|log| - 1].result)
  }

  /** A record after processing all of `log` for it, in order. */
  function RecordAll(r: ApiResult, log: seq<Entry>): ApiResult {
    if log == [] then r
    else var e := log[|log| - 1]; Record(RecordAll(r, log[..|log| - 1]), e.result, e.time)
  }

  function Latencies(log: seq<Entry>): (ms: seq<nat>)
    ensures |ms| == |log|
  {
    if log == [] then [] else Latencies(log[..|log| - 1]) + [log[|log| - 1].result.responseTime]
  }

  /** The error records appended for the failed entries of `log`. */
  function FailureRecords(log: seq<Entry>): seq<ErrorRecord> {
    if log == [] then []
    else
      var e := log[|log| - 1];
      FailureRecords(log[..|log| - 1])
        + (if e.result.success then [] else [ErrorRecord(e.time, e.result.statusCode, e.result.error)])
  }

  function Succeeded(e: Entry): nat { if e.result.success then 1 else 0 }
  function Failed(e: Entry): nat { if e.result.success then 0 else 1 }
  function Throttled(e: Entry): nat { if e.result.rateLimited then 1 else 0 }

  /** Each counter grows by the number of entries it counts: all of them, the
      successes, the failures, the rate-limited ones. */
  lemma {:induction false} TallyLogCounts(c: Counters, log: seq<Entry>)
    ensures TallyLog(c, log).totalRequests == c.totalRequests + |log|
    ensures TallyLog(c, log).successfulRequests == c.successfulRequests + Sequences.SumOf(log, Succeeded)
    ensures TallyLog(c, log).failedRequests == c.failedRequests + Sequences.SumOf(log, Failed)
    ensures TallyLog(c, log).rateLimited == c.rateLimited + Sequences.SumOf(log, Throttled)
  {
    if log != [] {
      TallyLogCounts(c, log[..|log| - 1]);
    }
  }

  /** Processing keeps the counters consistent. */
  lemma {:induction false} TallyLogConsistent(c: Counters, log: seq<Entry>)
    requires Consistent(c)
    ensures Consistent(TallyLog(c, log))
  {
    if log != [] {
      TallyLogConsistent(c, log[..|log| - 1]);
    }
  }

  /** Counter updates commute: the counters after a run do not depend on the
      order in which the outcomes completed. */
  lemma TallyLogIgnoresOrder(c: Counters, log1: seq<Entry>, log2: seq<Entry>)
    requires multiset(log1) == multiset(log2)
    ensures TallyLog(c, log1) == TallyLog(c, log2)
  {
    assert |log1| == |multiset(log1)| == |log2|;
    TallyLogCounts(c, log1);
    TallyLogCounts(c, log2);
    Sequences.SumOfPermutation(log1, log2, Succeeded);
    Sequences.SumOfPermutation(log1, log2, Failed);
    Sequences.SumOfPermutation(log1, log2, Throttled);
  }

  /** When every outcome was rate-limited, the rate-limited counter grows by the
      length of the log, as much as the total. */
  lemma AllThrottled(c: Counters, log: seq<Entry>)
    requires forall i :: 0 <= i < |log| ==> log[i].result.rateLimited
    ensures TallyLog(c, log).rateLimited == c.rateLimited + |log|
    ensures TallyLog(c, log).rateLimited - c.rateLimited == TallyLog(c, log).totalRequests - c.totalRequests
  {
    TallyLogCounts(c, log);
    Sequences.SumOfConstant(log, Throttled, 1);
  }

  /** When every outcome succeeded, only the success counter grows with the total. */
  lemma AllSucceeded(c: Counters, log: seq<Entry>)
    requires forall i :: 0 <= i < |log| ==> log[i].result.success
    ensures TallyLog(c, log).successfulRequests == c.successfulRequests + |log|
    ensures TallyLog(c, log).failedRequests == c.failedRequests
  {
    TallyLogCounts(c, log);
    Sequences.SumOfConstant(log, Succeeded, 1);
    Sequences.SumOfConstant(log, Failed, 0);
  }

  /** The record after a sequence of outcomes: its counters are the tallied
      counters, the latencies are appended in processing order, and one error
      record is appended per failure. */
  lemma {:induction false} RecordAllEffect(r: ApiResult, log: seq<Entry>)
    ensures RecordAll(r, log).counts == TallyLog(r.counts, log)
    ensures RecordAll(r, log).responseTimesMs == r.responseTimesMs + Latencies(log)
    ensures RecordAll(r, log).errors == r.errors + FailureRecords(log)
    ensures RecordAll(r, log).stats == r.stats
  {
    if log != [] {
      var prefix, e := log[..|log| - 1], log[|log| - 1];
      RecordAllEffect(r, prefix);
      var before := RecordAll(r, prefix);
      assert RecordAll(r, log) == Record(before, e.result, e.time);
      assert Latencies(log) == Latencies(prefix) + [e.result.responseTime];
      Sequences.AppendAssoc(r.responseTimesMs, Latencies(prefix), [e.result.responseTime]);
      var failed := if e.result.success then [] else [ErrorRecord(e.time, e.result.statusCode, e.result.error)];
      assert FailureRecords(log) == FailureRecords(prefix) + failed;
      Sequences.AppendAssoc(r.errors, FailureRecords(prefix), failed);
    }
  }

  lemma {:induction false} RecordAllCoherent(r: ApiResult, log: seq<Entry>)
    requires Coherent(r)
    ensures Coherent(RecordAll(r, log))
  {
    if log != [] {
      RecordAllCoherent(r, log[..|log| - 1]);
    }
  }

  /** A target's total grows by the number of entries naming it. */
  lemma {:induction false} ForTargetCount(log: seq<Entry>, t: Target)
    ensures |ForTarget(log, t)| == multiset(Targets(log))[t]
  {
    if log != [] {
      ForTargetCount(log[..|log| - 1], t);
    }
  }

  /** The table of records after processing `log` in order, one entry after the
      other. An entry for a target without a record leaves the table alone
      (`processResult` is only ever called with configured targets). */
  function ApplyLog(m: map<Target, ApiResult>, log: seq<Entry>): (m': map<Target, ApiResult>)
    ensures m'.Keys == m.Keys
    ensures forall t :: t in m && t !in Targets(log) ==> m'[t] == m[t]
  {
    if log == [] then m
    else
      var before := ApplyLog(m, log[..|log| - 1]);
      var e := log[|log| - 1];
      if e.api in before then before[e.api := Record(before[e.api], e.result, e.time)] else before
  }

  /** Processing one more entry changes the record of its target only. */
  lemma ApplyLogStep(m: map<Target, ApiResult>, log: seq<Entry>, e: Entry)
    requires e.api in m
    ensures ApplyLog(m, log + [e]) == ApplyLog(m, log)[e.api := Record(ApplyLog(m, log)[e.api], e.result, e.time)]
  {
    assert (log + [e])[..|log + [e]| - 1] == log;
  }

  /** Each target's record has seen exactly the entries naming it, in the
      order they were processed. */
  lemma {:induction false} ApplyLogAt(m: map<Target, ApiResult>, log: seq<Entry>, t: Target)
    requires t in m
    ensures ApplyLog(m, log)[t] == RecordAll(m[t], ForTarget(log, t))
  {
    if log != [] {
      var prefix := log[..|log| - 1];
      var e := log[|log| - 1];
      ApplyLogAt(m, prefix, t);
      if e.api == t {
        var f := ForTarget(prefix, t);
        assert ForTarget(log, t) == f + [e];
        assert (f + [e])[..|f + [e]| - 1] == f;
      } else {
        assert ForTarget(log, t) == ForTarget(prefix, t);
      }
    }
  }

  /** Filtering by target keeps every entry for that target, as often as the
      log holds it, and drops all others. */
  lemma {:induction false} ForTargetMultiset(log: seq<Entry>, t: Target, e: Entry)
    ensures multiset(ForTarget(log, t))[e] == if e.api == t then multiset(log)[e] else 0
  {
    if log != [] {
      var prefix := log[..|log| - 1];
      ForTargetMultiset(prefix, t, e);
      assert log == prefix + [log[|log| - 1]];
    }
  }

  lemma ForTargetPermutation(log1: seq<Entry>, log2: seq<Entry>, t: Target)
    requires multiset(log1) == multiset(log2)
    ensures multiset(ForTarget(log1, t)) == multiset(ForTarget(log2, t))
  {
    forall e ensures multiset(ForTarget(log1, t))[e] == multiset(ForTarget(log2, t))[e] {
      ForTargetMultiset(log1, t, e);
      ForTargetMultiset(log2, t, e);
    }
  }

  /** Counts the entries whose response time is `v`. */
  function LatencyIs(v: nat): Entry -> nat {
    (e: Entry) => if e.result.responseTime == v then 1 else 0
  }

  /** Counts the failed entries whose error record is `x`. */
  function FailureIs(x: ErrorRecord): Entry -> nat {
    (e: Entry) => if !e.result.success && ErrorRecord(e.time, e.result.statusCode, e.result.error) == x then 1 else 0
  }

  lemma {:induction false} LatenciesCount(log: seq<Entry>, v: nat)
    ensures multiset(Latencies(log))[v] == Sequences.SumOf(log, LatencyIs(v))
  {
    if log != [] {
      LatenciesCount(log[..|log| - 1], v);
    }
  }

  lemma {:induction false} FailureRecordsCount(log: seq<Entry>, x: ErrorRecord)
    ensures multiset(FailureRecords(log))[x] == Sequences.SumOf(log, FailureIs(x))
  {
    if log != [] {
      FailureRecordsCount(log[..|log| - 1], x);
    }
  }

  /** The same entries in another order give the same latency samples, in
      another order. */
  lemma LatenciesPermutation(log1: seq<Entry>, log2: seq<Entry>)
    requires multiset(log1) == multiset(log2)
    ensures multiset(Latencies(log1)) == multiset(Latencies(log2))
  {
    forall v ensures multiset(Latencies(log1))[v] == multiset(Latencies(log2))[v] {
      LatenciesCount(log1, v);
      LatenciesCount(log2, v);
      Sequences.SumOfPermutation(log1, log2, LatencyIs(v));
    }
  }

  /** The same entries in another order give the same error records, in
      another order. */
  lemma FailureRecordsPermutation(log1: seq<Entry>, log2: seq<Entry>)
    requires multiset(log1) == multiset(log2)
    ensures multiset(FailureRecords(log1)) == multiset(FailureRecords(log2))
  {
    forall x ensures multiset(FailureRecords(log1))[x] == multiset(FailureRecords(log2))[x] {
      FailureRecordsCount(log1, x);
      FailureRecordsCount(log2, x);
      Sequences.SumOfPermutation(log1, log2, FailureIs(x));
    }
  }

  /** Completion order reaches each target's record only through the order of
      its samples and error records: two orders of the same calls give every
      target the same counters and the same multisets of samples and errors. */
  lemma ApplyLogIgnoresOrder(m: map<Target, ApiResult>, log1: seq<Entry>, log2: seq<Entry>, t: Target)
    requires multiset(log1) == multiset(log2) && t in m
    ensures ApplyLog(m, log1)[t].counts == ApplyLog(m, log2)[t].counts
    ensures multiset(ApplyLog(m, log1)[t].responseTimesMs) == multiset(ApplyLog(m, log2)[t].responseTimesMs)
    ensures multiset(ApplyLog(m, log1)[t].errors) == multiset(ApplyLog(m, log2)[t].errors)
    ensures ApplyLog(m, log1)[t].stats == ApplyLog(m, log2)[t].stats
  {
    var f1, f2 := ForTarget(log1, t), ForTarget(log2, t);
    ApplyLogAt(m, log1, t);
    ApplyLogAt(m, log2, t);
    RecordAllEffect(m[t], f1);
    RecordAllEffect(m[t], f2);
    ForTargetPermutation(log1, log2, t);
    TallyLogIgnoresOrder(m[t].counts, f1, f2);
    LatenciesPermutation(f1, f2);
    FailureRecordsPermutation(f1, f2);
  }

  /** After finalisation the order is gone from the samples too: two orders of
      the same calls give every target identical sorted samples, statistics and
      counters; only the order of its error records may differ. */
  lemma FinalizedIgnoresOrder(m: map<Target, ApiResult>, log1: seq<Entry>, log2: seq<Entry>, t: Target)
    requires multiset(log1) == multiset(log2) && t in m
    ensures forall after1, after2 ::
      Finalized(ApplyLog(m, log1)[t], after1) && Finalized(ApplyLog(m, log2)[t], after2) ==>
        && after1.counts == after2.counts
        && after1.responseTimesMs == after2.responseTimesMs
        && after1.stats == after2.stats
        && multiset(after1.errors) == multiset(after2.errors)
  {
    var r1, r2 := ApplyLog(m, log1)[t], ApplyLog(m, log2)[t];
    ApplyLogIgnoresOrder(m, log1, log2, t);
    assert |r1.responseTimesMs| == |multiset(r1.responseTimesMs)| == |r2.responseTimesMs|;
    forall after1, after2 | Finalized(r1, after1) && Finalized(r2, after2)
      ensures after1.responseTimesMs == after2.responseTimesMs
    {
      Statistics.SortedUnique(after1.responseTimesMs, after2.responseTimesMs);
    }
  }

  /** Processing `a` and then `b` is processing `a + b`. */
  lemma {:induction false} TallyLogAppend(c: Counters, a: seq<Entry>, b: seq<Entry>)
    ensures TallyLog(TallyLog(c, a), b) == TallyLog(c, a + b)
    decreases |b|
  {
    if b == [] {
      assert a + b == a;
    } else {
      assert (a + b)[..|a + b| - 1] == a + b[..|b| - 1];
      TallyLogAppend(c, a, b[..|b| - 1]);
    }
  }

  lemma {:induction false} RecordAllAppend(r: ApiResult, a: seq<Entry>, b: seq<Entry>)
    ensures RecordAll(RecordAll(r, a), b) == RecordAll(r, a + b)
    decreases |b|
  {
    if b == [] {
      assert a + b == a;
    } else {
      assert (a + b)[..|a + b| - 1] == a + b[..|b| - 1];
      RecordAllAppend(r, a, b[..|b| - 1]);
    }
  }

  lemma {:induction false} ForTargetAppend(a: seq<Entry>, b: seq<Entry>, t: Target)
    ensures ForTarget(a + b, t) == ForTarget(a, t) + ForTarget(b, t)
    decreases |b|
  {
    if b == [] {
      assert a + b == a;
    } else {
      assert (a + b)[..|a + b| - 1] == a + b[..|b| - 1];
      ForTargetAppend(a, b[..|b| - 1], t);
    }
  }

  lemma ApplyLogAppend(m: map<Target, ApiResult>, a: seq<Entry>, b: seq<Entry>)
    ensures ApplyLog(ApplyLog(m, a), b) == ApplyLog(m, a + b)
  {
    forall t | t in m
      ensures ApplyLog(ApplyLog(m, a), b)[t] == ApplyLog(m, a + b)[t]
    {
      ApplyLogAt(m, a, t);
      ApplyLogAt(ApplyLog(m, a), b, t);
      ApplyLogAt(m, a + b, t);
      ForTargetAppend(a, b, t);
      RecordAllAppend(m[t], ForTarget(a, t), ForTarget(b, t));
    }
  }

  lemma TallyLogStep(c: Counters, log: seq<Entry>, e: Entry)
    ensures TallyLog(c, log + [e]) == Tally(TallyLog(c, log), e.result)
  {
    assert (log + [e])[..|log + [e]| - 1] == log;
  }

  lemma {:induction false} TargetsAppend(a: seq<Entry>, b: seq<Entry>)
    ensures Targets(a + b) == Targets(a) + Targets(b)
    decreases |b|
  {
    if b != [] {
      assert (a + b)[..|a + b| - 1] == a + b[..|b| - 1];
      TargetsAppend(a, b[..|b| - 1]);
    } else {
      assert a + b == a;
    }
  }

  // ---------------------------------------------------------------------------
  // Run totals as sums over the targets

  predicate Distinct(ks: seq<Target>) {
    forall i, j :: 0 <= i < j < |ks| ==> ks[i] != ks[j]
  }

  /** The sum of the per-target counters over the targets `ks`. */
  function Totals(ks: seq<Target>, m: map<Target, ApiResult>): Counters
    requires forall k :: k in ks ==> k in m
  {
    if ks == [] then NoRequests else Add(m[ks[0]].counts, Totals(ks[1..], m))
  }

  lemma {:induction false} TotalsOfEmptyRecords(ks: seq<Target>, m: map<Target, ApiResult>)
    requires forall k :: k in ks ==> k in m && m[k].counts == NoRequests
    ensures Totals(ks, m) == NoRequests
  {
    if ks != [] {
      var k := ks[0];
      assert k in ks;
      assert forall k' :: k' in ks[1..] ==> k' in ks;
      TotalsOfEmptyRecords(ks[1..], m);
    }
  }

  lemma {:induction false} TotalsSameCounts(ks: seq<Target>, m: map<Target, ApiResult>, m': map<Target, ApiResult>)
    requires forall k :: k in ks ==> k in m && k in m' && m[k].counts == m'[k].counts
    ensures Totals(ks, m) == Totals(ks, m')
  {
    if ks != [] {
      TotalsSameCounts(ks[1..], m, m');
    }
  }

  lemma TallyLeft(a: Counters, b: Counters, o: Outcome)
    ensures Add(Tally(a, o), b) == Tally(Add(a, b), o)
  {
  }

  lemma TallyRight(a: Counters, b: Counters, o: Outcome)
    ensures Add(a, Tally(b, o)) == Tally(Add(a, b), o)
  {
  }

  /** Tallying one outcome into one target's counters tallies it into the sum. */
  lemma {:induction false} TotalsAfterTally(ks: seq<Target>, m: map<Target, ApiResult>, t: Target, r: ApiResult, o: Outcome)
    requires Distinct(ks) && t in ks && t in m
    requires forall k :: k in ks ==> k in m
    requires r.counts == Tally(m[t].counts, o)
    ensures Totals(ks, m[t := r]) == Tally(Totals(ks, m), o)
  {
    var rest := ks[1..];
    assert Totals(ks, m) == Add(m[ks[0]].counts, Totals(rest, m));
    assert Totals(ks, m[t := r]) == Add(m[t := r][ks[0]].counts, Totals(rest, m[t := r]));
    if ks[0] == t {
      assert t !in rest;
      TotalsSameCounts(rest, m, m[t := r]);
      TallyLeft(m[t].counts, Totals(rest, m), o);
    } else {
      assert forall k :: k in rest ==> k in ks;
      TotalsAfterTally(rest, m, t, r, o);
      TallyRight(m[ks[0]].counts, Totals(rest, m), o);
    }
  }

  lemma {:induction false} TotalsConsistent(ks: seq<Target>, m: map<Target, ApiResult>)
    requires forall k :: k in ks ==> k in m && Consistent(m[k].counts)
    ensures Consistent(Totals(ks, m))
  {
    if ks != [] {
      assert forall k :: k in ks[1..] ==> k in ks;
      TotalsConsistent(ks[1..], m);
      assert Totals(ks, m) == Add(m[ks[0]].counts, Totals(ks[1..], m));
    }
  }

  // ---------------------------------------------------------------------------
  // Finalisation of one record

  /** A record whose samples are sorted and whose statistics, when it has
      samples, are the ones read from them. */
  predicate IsFinal(r: ApiResult) {
    && Statistics.Sorted(r.responseTimesMs)
    && (|r.responseTimesMs| > 0 ==> r.stats == Some(Statistics.StatsOfSorted(r.responseTimesMs)))
  }

  /** What finalisation does to one record: a record without samples is left
      alone; otherwise its samples are sorted and its statistics set, and
      nothing else changes. */
  predicate Finalized(before: ApiResult, after: ApiResult) {
    && (|before.responseTimesMs| == 0 ==> after == before)
    && after.counts == before.counts
    && after.errors == before.errors
    && multiset(after.responseTimesMs) == multiset(before.responseTimesMs)
    && IsFinal(after)
    && (|before.responseTimesMs| > 0 ==>
          after.stats.Some? &&
          after.stats.value.sumResponseTime == Statistics.Total(before.responseTimesMs))
  }

  /** The statistics block for one target: a record with samples gets them
      sorted and its statistics set. */
  method FinalizeRecord(r: ApiResult) returns (r': ApiResult)
    ensures Finalized(r, r')
  {
    r' := r;
    if |r.responseTimesMs| > 0 {
      var sorted, stats := Statistics.SortAndSummarize(r.responseTimesMs);
      r' := r.(responseTimesMs := sorted, stats := Some(stats));
    }
  }

  lemma FinalizedKeepsCoherent(before: ApiResult, after: ApiResult)
    requires Coherent(before) && Finalized(before, after)
    ensures Coherent(after)
  {
    assert |after.responseTimesMs| == |multiset(after.responseTimesMs)|;
  }

  /** The invariant of the results table: one record per configured target,
      `keys` lists each of them once, every record is coherent, and the run's
      counters are the sums of the per-target counters. */
  ghost predicate TableInvariant(apis: seq<Target>, keys: seq<Target>, counts: Counters, m: map<Target, ApiResult>) {
    && (forall t :: t in m <==> t in apis)
    && (forall t :: t in keys <==> t in apis)
    && Distinct(keys)
    && (forall t :: t in m ==> Coherent(m[t]))
    && counts == Totals(keys, m)
  }

  /** One step of `APIs.forEach`: listing `apis[i]` gives it an empty record, and
      its key is added the first time it is seen. */
  lemma InitStep(apis: seq<Target>, i: nat, ks: seq<Target>, m: map<Target, ApiResult>,
                 ks': seq<Target>, m': map<Target, ApiResult>)
    requires i < |apis|
    requires forall t :: t in m <==> t in apis[..i]
    requires forall t :: t in ks <==> t in apis[..i]
    requires Distinct(ks)
    requires forall t :: t in m ==> m[t] == EmptyApiResult
    requires ks' == (if apis[i] in m then ks else ks + [apis[i]])
    requires m' == m[apis[i] := EmptyApiResult]
    ensures forall t :: t in m' <==> t in apis[..i + 1]
    ensures forall t :: t in ks' <==> t in apis[..i + 1]
    ensures Distinct(ks')
    ensures forall t :: t in m' ==> m'[t] == EmptyApiResult
  {
    assert apis[..i + 1] == apis[..i] + [apis[i]];
  }

  /** Empty records for exactly the listed targets satisfy the table invariant
      with zero summary counters. */
  lemma InitialInvariant(apis: seq<Target>, ks: seq<Target>, m: map<Target, ApiResult>)
    requires forall t :: t in m <==> t in apis
    requires forall t :: t in ks <==> t in apis
    requires Distinct(ks)
    requires forall t :: t in m ==> m[t] == EmptyApiResult
    ensures TableInvariant(apis, ks, NoRequests, m)
  {
    TotalsOfEmptyRecords(ks, m);
  }

  /** The initialisation loop over `APIs`: one empty record per listed target,
      keyed by target, so a target listed twice gets one record. */
  method InitialTable(apis: seq<Target>) returns (ks: seq<Target>, m: map<Target, ApiResult>)
    ensures TableInvariant(apis, ks, NoRequests, m)
    ensures forall t :: t in m ==> m[t] == EmptyApiResult
  {
    ks, m := [], map[];
    for i := 0 to |apis|
      invariant forall t :: t in m <==> t in apis[..i]
      invariant forall t :: t in ks <==> t in apis[..i]
      invariant Distinct(ks)
      invariant forall t :: t in m ==> m[t] == EmptyApiResult
    {
      var ks' := if apis[i] in m then ks else ks + [apis[i]];
      var m' := m[apis[i] := EmptyApiResult];
      InitStep(apis, i, ks, m, ks', m');
      ks, m := ks', m';
    }
    assert apis[..|apis|] == apis;
    InitialInvariant(apis, ks, m);
  }

  /** Processing one outcome for a configured target keeps the table invariant:
      the summary is tallied exactly as the target's record is. */
  lemma ProcessKeepsTable(apis: seq<Target>, keys: seq<Target>, counts: Counters,
                          m: map<Target, ApiResult>, t: Target, o: Outcome, time: Timestamp)
    requires TableInvariant(apis, keys, counts, m) && t in m
    ensures TableInvariant(apis, keys, Tally(counts, o), m[t := Record(m[t], o, time)])
  {
    var r := Record(m[t], o, time);
    RecordKeepsCoherent(m[t], o, time);
    TotalsAfterTally(keys, m, t, r, o);
  }

  /** Finalising every record keeps the table invariant. */
  lemma FinalizedTableInvariant(apis: seq<Target>, keys: seq<Target>, counts: Counters,
                                m: map<Target, ApiResult>, m': map<Target, ApiResult>)
    requires TableInvariant(apis, keys, counts, m)
    requires m'.Keys == m.Keys
    requires forall t :: t in m ==> Finalized(m[t], m'[t])
    ensures TableInvariant(apis, keys, counts, m')
  {
    forall t | t in m' ensures Coherent(m'[t]) {
      FinalizedKeepsCoherent(m[t], m'[t]);
    }
    TotalsSameCounts(keys, m, m');
  }

  /** One iteration of the finalisation loop: finalise the record of key `t`,
      not yet done, extending the finalised part of the table by `t`. */
  method FinalizeKey(m: map<Target, ApiResult>, m': map<Target, ApiResult>, ghost done: seq<Target>, t: Target)
    returns (m'': map<Target, ApiResult>)
    requires m'.Keys == m.Keys && t in m && t !in done
    requires forall u :: u in done ==> u in m
    requires forall u :: u in m && u !in done ==> m'[u] == m[u]
    requires forall u :: u in done ==> Finalized(m[u], m'[u])
    ensures m''.Keys == m.Keys
    ensures forall u :: u in m && u !in done + [t] ==> m''[u] == m[u]
    ensures forall u :: u in done + [t] ==> Finalized(m[u], m''[u])
  {
    var r' := FinalizeRecord(m'[t]);
    m'' := m'[t := r'];
  }

  /** In a list without duplicates, the key at `i` is not among those before it. */
  lemma DistinctPrefix(keys: seq<Target>, i: nat)
    requires Distinct(keys) && i < |keys|
    ensures keys[i] !in keys[..i]
    ensures keys[..i + 1] == keys[..i] + [keys[i]]
  {
    forall j | 0 <= j < i
      ensures keys[..i][j] != keys[i]
    {
      assert keys[..i][j] == keys[j];
    }
  }

  /** The loop over `Object.keys(apiResults)`: finalise the record of each key. */
  method FinalizeRecords(keys: seq<Target>, m: map<Target, ApiResult>) returns (m': map<Target, ApiResult>)
    requires Distinct(keys)
    requires forall t :: t in m ==> t in keys
    requires forall t :: t in keys ==> t in m
    ensures m'.Keys == m.Keys
    ensures forall t :: t in m ==> Finalized(m[t], m'[t])
  {
    m' := m;
    for i := 0 to |keys|
      invariant m'.Keys == m.Keys
      invariant forall t :: t in m && t !in keys[..i] ==> m'[t] == m[t]
      invariant forall t :: t in keys[..i] ==> Finalized(m[t], m'[t])
    {
      var t := keys[i];
      DistinctPrefix(keys, i);
      m' := FinalizeKey(m, m', keys[..i], t);
    }
    assert keys[..|keys|] == keys;
  }

  /** Finalising a finalised record changes nothing. */
  lemma FinalizeIdempotent(before: ApiResult, after: ApiResult)
    requires IsFinal(before) && Finalized(before, after)
    ensures after == before
  {
    Statistics.SortedUnique(after.responseTimesMs, before.responseTimesMs);
  }

  // ---------------------------------------------------------------------------
  // The results table

  class LoadTestResults {
    /** The configured targets, in order; duplicates share one record. */
    const apis: seq<Target>
    /** `Object.keys(apiResults)`: each target once. */
    const keys: seq<Target>
    var summary: Summary
    var apiResults: map<Target, ApiResult>

    ghost predicate Valid()
      reads this
    {
      TableInvariant(apis, keys, summary.counts, apiResults)
    }

    /** The run's counters are consistent. */
    lemma SummaryConsistent()
      requires Valid()
      ensures Consistent(summary.counts)
    {
      TotalsConsistent(keys, apiResults);
    }

    /** The initial table: one empty record per configured target. */
    constructor (apis: seq<Target>)
      ensures Valid()
      ensures this.apis == apis
      ensures summary == Summary(None, None, NoRequests)
      ensures forall t :: t in apiResults ==> apiResults[t] == EmptyApiResult
    {
      var ks, m := InitialTable(apis);
      this.apis := apis;
      keys := ks;
      apiResults := m;
      summary := Summary(None, None, NoRequests);
    }

    /** `runTest` stamps the start time before the first batch. */
    method Start(startTime: Timestamp)
      requires Valid()
      modifies this
      ensures Valid()
      ensures summary == old(summary).(startTime := Some(startTime))
      ensures apiResults == old(apiResults)
    {
      summary := summary.(startTime := Some(startTime));
    }

    /** `processResult(api, result)`: count the outcome for the run and for its
        target, record an error on failure, and append the latency sample. */
    method ProcessResult(api: Target, result: Outcome, time: Timestamp)
      requires Valid() && api in apiResults
      modifies this
      ensures Valid()
      ensures summary == old(summary).(counts := Tally(old(summary.counts), result))
      ensures apiResults == old(apiResults)[api := Record(old(apiResults[api]), result, time)]
    {
      var c := summary.counts;
      var r := apiResults[api];
      var rc := r.counts;
      c := c.(totalRequests := c.totalRequests + 1);
      rc := rc.(totalRequests := rc.totalRequests + 1);

      if result.success {
        c := c.(successfulRequests := c.successfulRequests + 1);
        rc := rc.(successfulRequests := rc.successfulRequests + 1);
      } else {
        c := c.(failedRequests := c.failedRequests + 1);
        rc := rc.(failedRequests := rc.failedRequests + 1);
        r := r.(errors := r.errors + [ErrorRecord(time, result.statusCode, result.error)]);
      }

      if result.rateLimited {
        c := c.(rateLimited := c.rateLimited + 1);
        rc := rc.(rateLimited := rc.rateLimited + 1);
      }

      r := r.(counts := rc, responseTimesMs := r.responseTimesMs + [result.responseTime]);
      assert c == Tally(summary.counts, result);
      assert r == Record(apiResults[api], result, time);
      ProcessKeepsTable(apis, keys, summary.counts, apiResults, api, result, time);
      summary := summary.(counts := c);
      apiResults := apiResults[api := r];
    }

    /** `finalizeResults()` without its logging and file output: stamp the end
        time, then for each target with samples sort them and set its statistics. */
    method FinalizeResults(endTime: Timestamp)
      requires Valid()
      modifies this
      ensures Valid()
      ensures summary == old(summary).(endTime := Some(endTime))
      ensures apiResults.Keys == old(apiResults).Keys
      ensures forall t :: t in apiResults ==> Finalized(old(apiResults)[t], apiResults[t])
      ensures forall t :: t in apiResults && IsFinal(old(apiResults)[t]) ==> apiResults[t] == old(apiResults)[t]
    {
      var m := FinalizeRecords(keys, apiResults);
      forall t | t in m && IsFinal(apiResults[t])
        ensures m[t] == apiResults[t]
      {
        FinalizeIdempotent(apiResults[t], m[t]);
      }
      FinalizedTableInvariant(apis, keys, summary.counts, apiResults, m);
      apiResults := m;
      summary := summary.(endTime := Some(endTime));
    }
  }
}
