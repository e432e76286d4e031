/** The batch loop of a run, in sequential form. Each batch enumerates one
    work item per target and repetition; the requests run under a concurrency
    bound and may complete in any order, so the completions of a batch are an
    input: the work item each completion belongs to, its outcome and its time.
    Waiting between batches is recorded, not performed. */
module Scheduler {
  import opened Wrappers
  import opened Outcomes
  import opened Aggregator
  import Statistics

  /** The test parameters; `concurrentRequests` and `delayBetweenBatches`
      shape the timing of a run only. */
  datatype Config = Config(
    concurrentRequests: nat,
    requestsPerBatch: nat,
    delayBetweenBatches: nat,
    totalBatches: nat)

  const DefaultConfig := Config(5, 100, 2000, 10)

  lemma MulStep(a: nat, b: nat)
    ensures (a + 1) * b == a * b + b
    ensures b * (a + 1) == b * a + b
  {
  }

  function Repeat(t: Target, n: nat): (r: seq<Target>)
    ensures |r| == n
    ensures forall i :: 0 <= i < n ==> r[i] == t
  {
    if n == 0 then [] else Repeat(t, n - 1) + [t]
  }

  /** The work items of one batch: for each target in order, `requestsPerBatch`
      items bound to it. */
  function BatchItems(apis: seq<Target>, requestsPerBatch: nat): (items: seq<Target>)
    ensures |items| == |apis| * requestsPerBatch
  {
    if apis == [] then []
    else
      var n := |apis|;
      assert n * requestsPerBatch == (n - 1) * requestsPerBatch + requestsPerBatch;
      BatchItems(apis[..n - 1], requestsPerBatch) + Repeat(apis[n - 1], requestsPerBatch)
  }

  /** Target-major order: item `q * requestsPerBatch + r` is the `r`-th
      repetition for target `q`. */
  lemma {:induction false} BatchItemAt(apis: seq<Target>, requestsPerBatch: nat, q: nat, r: nat)
    requires q < |apis| && r < requestsPerBatch
    ensures q * requestsPerBatch + r < |apis| * requestsPerBatch
    ensures BatchItems(apis, requestsPerBatch)[q * requestsPerBatch + r] == apis[q]
  {
    var n := |apis|;
    var prefix := apis[..n - 1];
    var front := BatchItems(prefix, requestsPerBatch);
    assert BatchItems(apis, requestsPerBatch) == front + Repeat(apis[n - 1], requestsPerBatch);
    ItemArith(n, q, r, requestsPerBatch);
    if q < n - 1 {
      BatchItemAt(prefix, requestsPerBatch, q, r);
      assert prefix[q] == apis[q];
    }
  }

  /** Where item `q * p + r` falls among `n` groups of `p` items. */
  lemma ItemArith(n: nat, q: nat, r: nat, p: nat)
    requires q < n && r < p
    ensures q * p + r < n * p
    ensures n * p == (n - 1) * p + p
    ensures q < n - 1 ==> q * p + r < (n - 1) * p
  {
    MulStep(q, p);
    MulStep(n - 1, p);
    Statistics.MulMonotone(q + 1, n, p);
    if q < n - 1 {
      Statistics.MulMonotone(q + 1, n - 1, p);
    }
  }

  /** Every work item is bound to a configured target. */
  lemma {:induction false} BatchItemsAreTargets(apis: seq<Target>, requestsPerBatch: nat)
    ensures forall k :: 0 <= k < |BatchItems(apis, requestsPerBatch)| ==>
      BatchItems(apis, requestsPerBatch)[k] in apis
  {
    if apis != [] {
      var n := |apis|;
      BatchItemsAreTargets(apis[..n - 1], requestsPerBatch);
      assert forall t :: t in apis[..n - 1] ==> t in apis;
    }
  }

  lemma RepeatCount(t: Target, n: nat, u: Target)
    ensures multiset(Repeat(t, n))[u] == if t == u then n else 0
  {
    if n > 0 {
      RepeatCount(t, n - 1, u);
    }
  }

  lemma BatchItemsSplit(apis: seq<Target>, requestsPerBatch: nat, t: Target)
    requires apis != []
    ensures multiset(BatchItems(apis, requestsPerBatch))[t] ==
      multiset(BatchItems(apis[..|apis| - 1], requestsPerBatch))[t] + multiset(Repeat(apis[|apis| - 1], requestsPerBatch))[t]
  {
    var front, group := BatchItems(apis[..|apis| - 1], requestsPerBatch), Repeat(apis[|apis| - 1], requestsPerBatch);
    assert BatchItems(apis, requestsPerBatch) == front + group;
    assert multiset(front + group) == multiset(front) + multiset(group);
  }

  lemma ListingSplit(apis: seq<Target>, t: Target)
    requires apis != []
    ensures multiset(apis)[t] == multiset(apis[..|apis| - 1])[t] + (if apis[|apis| - 1] == t then 1 else 0)
  {
    var front, last := apis[..|apis| - 1], apis[|apis| - 1];
    assert apis == front + [last];
    assert multiset(front + [last]) == multiset(front) + multiset([last]);
  }

  /** `a` groups of `p`, counted by repeated addition. */
  function Times(a: nat, p: nat): nat {
    if a == 0 then 0 else Times(a - 1, p) + p
  }

  lemma {:induction false} TimesIsProduct(a: nat, p: nat)
    ensures Times(a, p) == a * p
  {
    if a > 0 {
      TimesIsProduct(a - 1, p);
      MulStep(a - 1, p);
    }
  }

  lemma {:induction false} BatchItemsTimes(apis: seq<Target>, requestsPerBatch: nat, t: Target)
    ensures multiset(BatchItems(apis, requestsPerBatch))[t] == Times(multiset(apis)[t], requestsPerBatch)
  {
    if apis != [] {
      var prefix, last := apis[..|apis| - 1], apis[|apis| - 1];
      BatchItemsSplit(apis, requestsPerBatch, t);
      ListingSplit(apis, t);
      BatchItemsTimes(prefix, requestsPerBatch, t);
      RepeatCount(last, requestsPerBatch, t);
    }
  }

  /** A target listed `k` times gets `k * requestsPerBatch` work items per batch. */
  lemma BatchItemsCount(apis: seq<Target>, requestsPerBatch: nat, t: Target)
    ensures multiset(BatchItems(apis, requestsPerBatch))[t] == multiset(apis)[t] * requestsPerBatch
  {
    BatchItemsTimes(apis, requestsPerBatch, t);
    TimesIsProduct(multiset(apis)[t], requestsPerBatch);
  }

  /** The nested loops that push one request closure per target and repetition. */
  method EnumerateBatch(apis: seq<Target>, requestsPerBatch: nat) returns (items: seq<Target>)
    ensures items == BatchItems(apis, requestsPerBatch)
  {
    items := [];
    for i := 0 to |apis|
      invariant items == BatchItems(apis[..i], requestsPerBatch)
    {
      for j := 0 to requestsPerBatch
        invariant items == BatchItems(apis[..i], requestsPerBatch) + Repeat(apis[i], j)
      {
        items := items + [apis[i]];
      }
      assert apis[..i + 1][..i] == apis[..i];
    }
    assert apis[..|apis|] == apis;
  }

  // ---------------------------------------------------------------------------
  // Completions

  /** One finished work item: its index in the batch's enumeration, the outcome
      its requester produced and the time at which it was recorded. */
  datatype Completion = Completion(item: nat, result: Outcome, time: Timestamp)

  function ItemsOf(cs: seq<Completion>): (ks: seq<nat>)
    ensures |ks| == |cs|
  {
    if cs == [] then [] else ItemsOf(cs[..|cs| - 1]) + [cs[|cs| - 1].item]
  }

  function Range(n: nat): (r: seq<nat>)
    ensures |r| == n
  {
    if n == 0 then [] else Range(n - 1) + [n - 1]
  }

  /** Every completion names one of `n` work items: `Bounded` read off the
      completions' item fields (`BatchLogTargets` turns one into the other). */
  predicate InRange(cs: seq<Completion>, n: nat) {
    forall j :: 0 <= j < |cs| ==> cs[j].item < n
  }

  /** Every completion names one of the `n` work items of the batch, and each of
      them completes exactly once (every request's closure runs to its
      `processResult` call before the batch is over). */
  predicate CompletesEachOnce(cs: seq<Completion>, n: nat) {
    InRange(cs, n) && multiset(ItemsOf(cs)) == multiset(Range(n))
  }

  /** The `processResult` calls made by one batch, in completion order. */
  function BatchLog(items: seq<Target>, cs: seq<Completion>): (log: seq<Entry>)
    requires InRange(cs, |items|)
    ensures |log| == |cs|
    ensures forall j :: 0 <= j < |cs| ==> log[j] == Entry(items[cs[j].item], cs[j].result, cs[j].time)
  {
    if cs == [] then []
    else
      var c := cs[|cs| - 1];
      BatchLog(items, cs[..|cs| - 1]) + [Entry(items[c.item], c.result, c.time)]
  }

  predicate AllInRange(batches: seq<seq<Completion>>, n: nat) {
    forall b :: 0 <= b < |batches| ==> InRange(batches[b], n)
  }

  /** Every batch of the run completes each of its `n` work items once. */
  predicate RunCompletes(batches: seq<seq<Completion>>, n: nat) {
    && AllInRange(batches, n)
    && forall b :: 0 <= b < |batches| ==> CompletesEachOnce(batches[b], n)
  }

  /** The `processResult` calls of a whole run, batch after batch. */
  function RunLog(items: seq<Target>, batches: seq<seq<Completion>>): (log: seq<Entry>)
    requires AllInRange(batches, |items|)
    ensures forall e :: e in log ==> e.api in items
  {
    if batches == [] then []
    else RunLog(items, batches[..|batches| - 1]) + BatchLog(items, batches[|batches| - 1])
  }

  /** Every index of `ks` is below `n`. */
  predicate Bounded(ks: seq<nat>, n: nat) {
    forall j :: 0 <= j < |ks| ==> ks[j] < n
  }

  function Select(items: seq<Target>, ks: seq<nat>): (r: seq<Target>)
    requires Bounded(ks, |items|)
    ensures |r| == |ks|
  {
    if ks == [] then [] else Select(items, ks[..|ks| - 1]) + [items[ks[|ks| - 1]]]
  }

  lemma {:induction false} SelectAppend(items: seq<Target>, a: seq<nat>, b: seq<nat>)
    requires Bounded(a, |items|) && Bounded(b, |items|)
    ensures Bounded(a + b, |items|)
    ensures Select(items, a + b) == Select(items, a) + Select(items, b)
    decreases |b|
  {
    if b == [] {
      assert a + b == a;
    } else {
      assert (a + b)[..|a + b| - 1] == a + b[..|b| - 1];
      SelectAppend(items, a, b[..|b| - 1]);
    }
  }

  lemma {:induction false} SelectRemoveAt(items: seq<Target>, ks: seq<nat>, k: nat)
    requires k < |ks| && Bounded(ks, |items|)
    ensures Bounded(ks[..k] + ks[k + 1..], |items|)
    ensures multiset(Select(items, ks)) == multiset(Select(items, ks[..k] + ks[k + 1..])) + multiset{items[ks[k]]}
  {
    var pre, rest, post := ks[..k], ks[k..], ks[k + 1..];
    assert ks == pre + rest;
    assert rest == [ks[k]] + post;
    SelectAppend(items, pre, rest);
    SelectAppend(items, [ks[k]], post);
    SelectAppend(items, pre, post);
    assert Select(items, [ks[k]]) == [items[ks[k]]] by { assert [ks[k]][..0] == []; }
  }

  /** Which items are selected matters, not in which order. */
  lemma {:induction false} SelectPermutation(items: seq<Target>, a: seq<nat>, b: seq<nat>)
    requires Bounded(a, |items|) && Bounded(b, |items|)
    requires multiset(a) == multiset(b)
    ensures multiset(Select(items, a)) == multiset(Select(items, b))
    decreases |a|
  {
    if a == [] {
      assert b == [] by { assert |multiset(b)| == |b|; }
    } else {
      var a' := a[..|a| - 1];
      var k := Sequences.MatchLast(a, b);
      assert Bounded(a', |items|) by {
        forall j | 0 <= j < |a'| ensures a'[j] < |items| { assert a'[j] == a[j]; }
      }
      SelectRemoveAt(items, b, k);
      SelectPermutation(items, a', b[..k] + b[k + 1..]);
    }
  }

  lemma {:induction false} SelectRange(items: seq<Target>, n: nat)
    requires n <= |items|
    ensures Bounded(Range(n), |items|)
    ensures Select(items, Range(n)) == items[..n]
  {
    RangeAt(n);
    if n > 0 {
      RangeAt(n - 1);
      assert Range(n)[..n - 1] == Range(n - 1);
      SelectRange(items, n - 1);
      assert items[..n] == items[..n - 1] + [items[n - 1]];
    }
  }

  lemma {:induction false} RangeAt(n: nat)
    ensures forall j :: 0 <= j < n ==> Range(n)[j] == j
  {
    if n > 0 {
      RangeAt(n - 1);
    }
  }

  /** Counts the completions whose call is `e`. */
  function CallIs(items: seq<Target>, e: Entry): Completion -> nat {
    (c: Completion) => if c.item < |items| && Entry(items[c.item], c.result, c.time) == e then 1 else 0
  }

  lemma {:induction false} BatchLogCount(items: seq<Target>, cs: seq<Completion>, e: Entry)
    requires InRange(cs, |items|)
    ensures multiset(BatchLog(items, cs))[e] == Sequences.SumOf(cs, CallIs(items, e))
  {
    if cs != [] {
      var prefix := cs[..|cs| - 1];
      assert InRange(prefix, |items|);
      BatchLogCount(items, prefix, e);
    }
  }

  /** The completions of a batch arriving in another order make the same
      `processResult` calls in another order. */
  lemma BatchLogPermutation(items: seq<Target>, cs1: seq<Completion>, cs2: seq<Completion>)
    requires InRange(cs1, |items|) && multiset(cs1) == multiset(cs2)
    ensures InRange(cs2, |items|)
    ensures multiset(BatchLog(items, cs1)) == multiset(BatchLog(items, cs2))
  {
    forall j | 0 <= j < |cs2| ensures cs2[j].item < |items| {
      assert cs2[j] in multiset(cs1);
      var i :| 0 <= i < |cs1| && cs1[i] == cs2[j];
    }
    forall e ensures multiset(BatchLog(items, cs1))[e] == multiset(BatchLog(items, cs2))[e] {
      BatchLogCount(items, cs1, e);
      BatchLogCount(items, cs2, e);
      Sequences.SumOfPermutation(cs1, cs2, CallIs(items, e));
    }
  }

  lemma {:induction false} BatchLogTargets(items: seq<Target>, cs: seq<Completion>)
    requires InRange(cs, |items|)
    ensures Bounded(ItemsOf(cs), |items|)
    ensures Targets(BatchLog(items, cs)) == Select(items, ItemsOf(cs))
  {
    ItemsAt(cs);
    if cs != [] {
      var cs' := cs[..|cs| - 1];
      assert InRange(cs', |items|);
      BatchLogTargets(items, cs');
      var log := BatchLog(items, cs);
      assert log[..|log| - 1] == BatchLog(items, cs');
      assert ItemsOf(cs)[..|cs| - 1] == ItemsOf(cs');
    }
  }

  lemma {:induction false} ItemsAt(cs: seq<Completion>)
    ensures forall j :: 0 <= j < |cs| ==> ItemsOf(cs)[j] == cs[j].item
  {
    if cs != [] {
      ItemsAt(cs[..|cs| - 1]);
    }
  }

  /** A batch in which every work item completes once records each item's
      target once, whatever the completion order. */
  lemma BatchLogCoversItems(items: seq<Target>, cs: seq<Completion>)
    requires CompletesEachOnce(cs, |items|)
    ensures multiset(Targets(BatchLog(items, cs))) == multiset(items)
    ensures |BatchLog(items, cs)| == |items|
  {
    BatchLogTargets(items, cs);
    SelectRange(items, |items|);
    assert items[..|items|] == items;
    SelectPermutation(items, ItemsOf(cs), Range(|items|));
    assert |cs| == |multiset(ItemsOf(cs))| == |Range(|items|)|;
  }

  lemma RunCompletesPrefix(batches: seq<seq<Completion>>, n: nat)
    requires RunCompletes(batches, n) && batches != []
    ensures RunCompletes(batches[..|batches| - 1], n)
    ensures CompletesEachOnce(batches[|batches| - 1], n)
  {
    var prefix := batches[..|batches| - 1];
    assert forall b :: 0 <= b < |prefix| ==> prefix[b] == batches[b];
  }

  /** A run of complete batches records `|items|` entries per batch. */
  lemma {:induction false} RunLogLength(items: seq<Target>, batches: seq<seq<Completion>>)
    requires RunCompletes(batches, |items|)
    ensures |RunLog(items, batches)| == |batches| * |items|
  {
    if batches != [] {
      var n := |batches|;
      RunCompletesPrefix(batches, |items|);
      RunLogLength(items, batches[..n - 1]);
      BatchLogCoversItems(items, batches[n - 1]);
      MulStep(n - 1, |items|);
    }
  }

  /** A run of complete batches records each target, per batch, as often as it
      has work items. */
  lemma {:induction false} RunLogTargetTimes(items: seq<Target>, batches: seq<seq<Completion>>, t: Target)
    requires RunCompletes(batches, |items|)
    ensures multiset(Targets(RunLog(items, batches)))[t] == Times(|batches|, multiset(items)[t])
  {
    if batches != [] {
      var prefix, last := batches[..|batches| - 1], batches[|batches| - 1];
      RunCompletesPrefix(batches, |items|);
      RunLogTargetTimes(items, prefix, t);
      BatchLogTargetCount(items, last, t);
      TargetCountAppend(RunLog(items, prefix), BatchLog(items, last), t);
    }
  }

  /** One complete batch records the target as often as it has work items. */
  lemma BatchLogTargetCount(items: seq<Target>, cs: seq<Completion>, t: Target)
    requires CompletesEachOnce(cs, |items|)
    ensures multiset(Targets(BatchLog(items, cs)))[t] == multiset(items)[t]
  {
    BatchLogCoversItems(items, cs);
  }

  lemma RunLogTargetCount(items: seq<Target>, batches: seq<seq<Completion>>, t: Target)
    requires RunCompletes(batches, |items|)
    ensures multiset(Targets(RunLog(items, batches)))[t] == |batches| * multiset(items)[t]
  {
    RunLogTargetTimes(items, batches, t);
    TimesIsProduct(|batches|, multiset(items)[t]);
  }

  /** Counting a target over two logs one after the other adds the counts. */
  lemma TargetCountAppend(a: seq<Entry>, b: seq<Entry>, t: Target)
    ensures multiset(Targets(a + b))[t] == multiset(Targets(a))[t] + multiset(Targets(b))[t]
  {
    TargetsAppend(a, b);
  }

  // ---------------------------------------------------------------------------
  // The run

  lemma {:induction false} BatchLogStep(items: seq<Target>, cs: seq<Completion>, j: nat)
    requires InRange(cs, |items|) && j < |cs|
    ensures InRange(cs[..j], |items|) && InRange(cs[..j + 1], |items|)
    ensures BatchLog(items, cs[..j + 1])
      == BatchLog(items, cs[..j]) + [Entry(items[cs[j].item], cs[j].result, cs[j].time)]
  {
    assert cs[..j + 1][..j] == cs[..j];
  }

  lemma {:induction false} RunLogStep(items: seq<Target>, batches: seq<seq<Completion>>, b: nat)
    requires AllInRange(batches, |items|) && b < |batches|
    ensures AllInRange(batches[..b], |items|) && AllInRange(batches[..b + 1], |items|)
    ensures RunLog(items, batches[..b + 1]) == RunLog(items, batches[..b]) + BatchLog(items, batches[b])
  {
    assert batches[..b + 1][..b] == batches[..b];
  }

  /** The batches after which a run of `batches` batches waits: all but the last. */
  function DelaySchedule(batches: nat): (r: seq<nat>)
    ensures forall b :: b in r ==> 1 <= b < batches
  {
    if batches <= 1 then [] else DelaySchedule(batches - 1) + [batches - 1]
  }

  /** A run of `n` batches waits exactly `n - 1` times, once after each batch but the last. */
  lemma {:induction false} DelayScheduleShape(n: nat)
    ensures |DelaySchedule(n)| == if n == 0 then 0 else n - 1
    ensures forall i :: 0 <= i < |DelaySchedule(n)| ==> DelaySchedule(n)[i] == i + 1
    ensures forall b :: b in DelaySchedule(n) <==> 1 <= b < n
  {
    if n > 1 {
      DelayScheduleShape(n - 1);
    }
  }

  /** The wait after batch `batch`: there is one exactly when a batch follows.
      Returns the batches after which the run has waited so far. */
  method WaitAfter(batch: nat, totalBatches: nat, delaysAfter: seq<nat>) returns (delaysAfter': seq<nat>)
    requires 1 <= batch <= totalBatches
    requires delaysAfter == DelaySchedule(batch)
    ensures delaysAfter' == DelaySchedule(if batch + 1 <= totalBatches then batch + 1 else totalBatches)
  {
    delaysAfter' := delaysAfter;
    if batch < totalBatches {
      delaysAfter' := delaysAfter' + [batch];
    }
  }

  /** One batch after its work items were enumerated: each completion, in the
      order they arrive, is passed to `processResult` with its item's target. */
  method ProcessBatch(results: LoadTestResults, items: seq<Target>, cs: seq<Completion>)
    requires results.Valid()
    requires InRange(cs, |items|)
    requires forall k :: 0 <= k < |items| ==> items[k] in results.apis
    modifies results
    ensures results.Valid()
    ensures results.summary ==
      old(results.summary).(counts := TallyLog(old(results.summary.counts), BatchLog(items, cs)))
    ensures results.apiResults == ApplyLog(old(results.apiResults), BatchLog(items, cs))
  {
    ghost var summary0 := results.summary;
    ghost var table0 := results.apiResults;
    assert cs[..0] == [];
    for j := 0 to |cs|
      invariant results.Valid()
      invariant BatchReached(results, items, cs, j, summary0, table0)
    {
      ProcessCompletion(results, items, cs, j, summary0, table0);
    }
    BatchReachedAll(results, items, cs, summary0, table0);
  }

  /** After the first `j` completions of a batch, the results are the starting
      ones after the calls those completions made. */
  ghost predicate BatchReached(results: LoadTestResults, items: seq<Target>, cs: seq<Completion>, j: nat,
                               summary0: Summary, table0: map<Target, ApiResult>)
    reads results
  {
    && j <= |cs|
    && InRange(cs[..j], |items|)
    && results.summary == summary0.(counts := TallyLog(summary0.counts, BatchLog(items, cs[..j])))
    && results.apiResults == ApplyLog(table0, BatchLog(items, cs[..j]))
  }

  /** The task of completion `j`: `processResult` for its item's target. */
  method ProcessCompletion(results: LoadTestResults, items: seq<Target>, cs: seq<Completion>, j: nat,
                           ghost summary0: Summary, ghost table0: map<Target, ApiResult>)
    requires results.Valid()
    requires InRange(cs, |items|) && j < |cs|
    requires forall k :: 0 <= k < |items| ==> items[k] in results.apis
    requires BatchReached(results, items, cs, j, summary0, table0)
    modifies results
    ensures results.Valid()
    ensures BatchReached(results, items, cs, j + 1, summary0, table0)
  {
    var c := cs[j];
    ghost var done := BatchLog(items, cs[..j]);
    ghost var e := Entry(items[c.item], c.result, c.time);
    BatchLogStep(items, cs, j);
    TallyLogStep(summary0.counts, done, e);
    ApplyLogStep(table0, done, e);
    results.ProcessResult(items[c.item], c.result, c.time);
  }

  lemma BatchReachedAll(results: LoadTestResults, items: seq<Target>, cs: seq<Completion>,
                        summary0: Summary, table0: map<Target, ApiResult>)
    requires InRange(cs, |items|)
    requires BatchReached(results, items, cs, |cs|, summary0, table0)
    ensures results.summary == summary0.(counts := TallyLog(summary0.counts, BatchLog(items, cs)))
    ensures results.apiResults == ApplyLog(table0, BatchLog(items, cs))
  {
    assert cs[..|cs|] == cs;
  }

  /** One batch of `runTest`: enumerate its work items, then process each
      completion as it arrives. */
  method RunBatch(results: LoadTestResults, cfg: Config, cs: seq<Completion>)
    requires results.Valid()
    requires InRange(cs, |results.apis| * cfg.requestsPerBatch)
    modifies results
    ensures results.Valid()
    ensures results.summary == old(results.summary).(counts :=
      TallyLog(old(results.summary.counts), BatchLog(BatchItems(results.apis, cfg.requestsPerBatch), cs)))
    ensures results.apiResults ==
      ApplyLog(old(results.apiResults), BatchLog(BatchItems(results.apis, cfg.requestsPerBatch), cs))
  {
    var items := EnumerateBatch(results.apis, cfg.requestsPerBatch);
    BatchItemsAreTargets(results.apis, cfg.requestsPerBatch);
    ProcessBatch(results, items, cs);
  }

  /** A state reached by processing `log` and then `next` is the state reached
      by processing `log + next`. */
  lemma LogExtends(s0: Summary, m0: map<Target, ApiResult>, log: seq<Entry>, next: seq<Entry>,
                   mid: Summary, midTable: map<Target, ApiResult>, s: Summary, m: map<Target, ApiResult>)
    requires mid == s0.(counts := TallyLog(s0.counts, log)) && midTable == ApplyLog(m0, log)
    requires s == mid.(counts := TallyLog(mid.counts, next)) && m == ApplyLog(midTable, next)
    ensures s == s0.(counts := TallyLog(s0.counts, log + next))
    ensures m == ApplyLog(m0, log + next)
  {
    TallyLogAppend(s0.counts, log, next);
    ApplyLogAppend(m0, log, next);
  }

  /** After the first `k` batches of the run, the results are the starting ones
      after `log`, the calls those batches made. */
  ghost predicate Reached(results: LoadTestResults, items: seq<Target>, completions: seq<seq<Completion>>, k: nat,
                          summary0: Summary, table0: map<Target, ApiResult>, log: seq<Entry>)
    reads results
  {
    && k <= |completions|
    && AllInRange(completions[..k], |items|)
    && log == RunLog(items, completions[..k])
    && results.summary == summary0.(counts := TallyLog(summary0.counts, log))
    && results.apiResults == ApplyLog(table0, log)
  }

  /** Batch `b + 1` of the run, given that batches 1 to `b` produced `log`:
      afterwards batches 1 to `b + 1` have produced the returned log. */
  method RunNextBatch(results: LoadTestResults, cfg: Config, ghost items: seq<Target>,
                      completions: seq<seq<Completion>>, b: nat,
                      ghost summary0: Summary, ghost table0: map<Target, ApiResult>, ghost log: seq<Entry>)
    returns (ghost log': seq<Entry>)
    requires results.Valid()
    requires items == BatchItems(results.apis, cfg.requestsPerBatch)
    requires b < |completions| && AllInRange(completions, |items|)
    requires Reached(results, items, completions, b, summary0, table0, log)
    modifies results
    ensures results.Valid()
    ensures Reached(results, items, completions, b + 1, summary0, table0, log')
  {
    RunLogStep(items, completions, b);
    ghost var mid, midTable := results.summary, results.apiResults;
    RunBatch(results, cfg, completions[b]);
    LogExtends(summary0, table0, log, BatchLog(items, completions[b]),
               mid, midTable, results.summary, results.apiResults);
    log' := log + BatchLog(items, completions[b]);
  }

  /** The batch loop of `runTest`: for batches 1 to `totalBatches`, enumerate the
      work items and process each completion as it arrives; after every batch
      but the last, wait `delayBetweenBatches`. Returns the batch numbers after
      which the run waited. */
  method RunBatches(results: LoadTestResults, cfg: Config, completions: seq<seq<Completion>>)
    returns (delaysAfter: seq<nat>)
    requires results.Valid()
    requires |completions| == cfg.totalBatches
    requires AllInRange(completions, |results.apis| * cfg.requestsPerBatch)
    modifies results
    ensures results.Valid()
    ensures results.summary ==
      old(results.summary).(counts := TallyLog(old(results.summary.counts),
                                              RunLog(BatchItems(results.apis, cfg.requestsPerBatch), completions)))
    ensures results.apiResults ==
      ApplyLog(old(results.apiResults), RunLog(BatchItems(results.apis, cfg.requestsPerBatch), completions))
    ensures delaysAfter == DelaySchedule(cfg.totalBatches)
  {
    ghost var items := BatchItems(results.apis, cfg.requestsPerBatch);
    ghost var summary0 := results.summary;
    ghost var table0 := results.apiResults;
    assert AllInRange(completions, |items|);
    ghost var log: seq<Entry> := [];
    assert Reached(results, items, completions, 0, summary0, table0, log);
    delaysAfter := [];
    var batch := 1;
    while batch <= cfg.totalBatches
      invariant 1 <= batch <= cfg.totalBatches + 1
      invariant results.Valid()
      invariant Reached(results, items, completions, batch - 1, summary0, table0, log)
      invariant delaysAfter == DelaySchedule(if batch <= cfg.totalBatches then batch else cfg.totalBatches)
    {
      log := RunNextBatch(results, cfg, items, completions, batch - 1, summary0, table0, log);
      delaysAfter := WaitAfter(batch, cfg.totalBatches, delaysAfter);
      batch := batch + 1;
    }
    ReachedAll(results, items, completions, summary0, table0, log);
  }

  /** Once every batch has run, `Reached` is the effect of the whole run's log. */
  lemma ReachedAll(results: LoadTestResults, items: seq<Target>, completions: seq<seq<Completion>>,
                   summary0: Summary, table0: map<Target, ApiResult>, log: seq<Entry>)
    requires Reached(results, items, completions, |completions|, summary0, table0, log)
    ensures AllInRange(completions, |items|)
    ensures results.summary == summary0.(counts := TallyLog(summary0.counts, RunLog(items, completions)))
    ensures results.apiResults == ApplyLog(table0, RunLog(items, completions))
  {
    assert completions[..|completions|] == completions;
  }

  /** Every call of a run carries one completion's outcome and time, for the
      target of that completion's work item. */
  lemma {:induction false} RunLogResults(items: seq<Target>, batches: seq<seq<Completion>>)
    requires AllInRange(batches, |items|)
    ensures forall e :: e in RunLog(items, batches) ==>
      exists b, k :: 0 <= b < |batches| && 0 <= k < |batches[b]| && e == Entry(items[batches[b][k].item], batches[b][k].result, batches[b][k].time)
  {
    if batches != [] {
      var n := |batches|;
      var prefix := batches[..n - 1];
      assert AllInRange(prefix, |items|) by {
        forall b | 0 <= b < |prefix| ensures InRange(prefix[b], |items|) { assert prefix[b] == batches[b]; }
      }
      RunLogResults(items, prefix);
      var before, added := RunLog(items, prefix), BatchLog(items, batches[n - 1]);
      assert RunLog(items, batches) == before + added;
      forall e | e in RunLog(items, batches)
        ensures exists b, k :: 0 <= b < |batches| && 0 <= k < |batches[b]| && e == Entry(items[batches[b][k].item], batches[b][k].result, batches[b][k].time)
      {
        if e in before {
          var b, k :| 0 <= b < |prefix| && 0 <= k < |prefix[b]| && e == Entry(items[prefix[b][k].item], prefix[b][k].result, prefix[b][k].time);
          assert prefix[b] == batches[b];
        } else {
          assert e in added;
          var k :| 0 <= k < |added| && added[k] == e;
          assert e == Entry(items[batches[n - 1][k].item], batches[n - 1][k].result, batches[n - 1][k].time);
        }
      }
    }
  }

  /** When every request of a run ends rate-limited, the run
      raises the rate-limited counter exactly as much as the total. */
  lemma ThrottledRun(items: seq<Target>, batches: seq<seq<Completion>>, c: Counters)
    requires AllInRange(batches, |items|)
    requires forall b, k :: 0 <= b < |batches| && 0 <= k < |batches[b]| ==> batches[b][k].result.rateLimited
    ensures TallyLog(c, RunLog(items, batches)).rateLimited - c.rateLimited ==
            TallyLog(c, RunLog(items, batches)).totalRequests - c.totalRequests
  {
    var log := RunLog(items, batches);
    RunLogResults(items, batches);
    forall i | 0 <= i < |log| ensures log[i].result.rateLimited {
      assert log[i] in log;
    }
    AllThrottled(c, log);
  }

  /** A target listed once in the configuration has multiplicity one. */
  lemma {:induction false} ListedOnce(apis: seq<Target>, t: Target)
    requires Distinct(apis) && t in apis
    ensures multiset(apis)[t] == 1
  {
    var n := |apis|;
    var prefix := apis[..n - 1];
    assert apis == prefix + [apis[n - 1]];
    if apis[n - 1] == t {
      forall i | 0 <= i < |prefix|
        ensures prefix[i] != t
      {
        assert prefix[i] == apis[i];
      }
    } else {
      assert t in prefix;
      ListedOnce(prefix, t);
    }
  }

  /** A run of completed batches adds `|apis| * requestsPerBatch` requests per
      batch to the run's total. */
  lemma RunTotal(apis: seq<Target>, requestsPerBatch: nat, batches: seq<seq<Completion>>, c: Counters)
    requires RunCompletes(batches, |apis| * requestsPerBatch)
    ensures TallyLog(c, RunLog(BatchItems(apis, requestsPerBatch), batches)).totalRequests
      == c.totalRequests + |apis| * requestsPerBatch * |batches|
  {
    var items := BatchItems(apis, requestsPerBatch);
    TallyLogCounts(c, RunLog(items, batches));
    RunLogLength(items, batches);
    assert |batches| * |items| == |apis| * requestsPerBatch * |batches|;
  }

  /** Under the shipped configuration (10 batches of 100 requests per target) a
      run adds 1000 requests per listed target to the summary and waits 9 times. */
  lemma DefaultRun(apis: seq<Target>, batches: seq<seq<Completion>>, c: Counters)
    requires |batches| == DefaultConfig.totalBatches
    requires RunCompletes(batches, |apis| * DefaultConfig.requestsPerBatch)
    ensures TallyLog(c, RunLog(BatchItems(apis, DefaultConfig.requestsPerBatch), batches)).totalRequests
      == c.totalRequests + 1000 * |apis|
    ensures |DelaySchedule(DefaultConfig.totalBatches)| == 9
  {
    RunTotal(apis, DefaultConfig.requestsPerBatch, batches, c);
    DelayScheduleShape(DefaultConfig.totalBatches);
  }

  /** A run of completed batches adds `requestsPerBatch` requests and latency
      samples per batch to a target for each time it is listed. */
  lemma TargetRunTotal(apis: seq<Target>, requestsPerBatch: nat, batches: seq<seq<Completion>>,
                       m: map<Target, ApiResult>, t: Target)
    requires RunCompletes(batches, |apis| * requestsPerBatch)
    requires t in m
    ensures ApplyLog(m, RunLog(BatchItems(apis, requestsPerBatch), batches))[t].counts.totalRequests
      == m[t].counts.totalRequests + multiset(apis)[t] * requestsPerBatch * |batches|
    ensures |ApplyLog(m, RunLog(BatchItems(apis, requestsPerBatch), batches))[t].responseTimesMs|
      == |m[t].responseTimesMs| + multiset(apis)[t] * requestsPerBatch * |batches|
  {
    var items := BatchItems(apis, requestsPerBatch);
    var log := RunLog(items, batches);
    var mine := ForTarget(log, t);
    ApplyLogAt(m, log, t);
    RecordAllEffect(m[t], mine);
    TallyLogCounts(m[t].counts, mine);
    ForTargetCount(log, t);
    RunLogTargetCount(items, batches, t);
    BatchItemsCount(apis, requestsPerBatch, t);
    var k := multiset(apis)[t];
    assert |mine| == |batches| * (k * requestsPerBatch);
    assert |batches| * (k * requestsPerBatch) == k * requestsPerBatch * |batches|;
  }

  /** With no target listed twice, each target's record gains exactly
      `requestsPerBatch` requests per batch. */
  lemma DistinctTargetRunTotal(apis: seq<Target>, requestsPerBatch: nat, batches: seq<seq<Completion>>,
                               m: map<Target, ApiResult>, t: Target)
    requires RunCompletes(batches, |apis| * requestsPerBatch)
    requires Distinct(apis) && t in apis && t in m
    ensures ApplyLog(m, RunLog(BatchItems(apis, requestsPerBatch), batches))[t].counts.totalRequests
      == m[t].counts.totalRequests + requestsPerBatch * |batches|
  {
    TargetRunTotal(apis, requestsPerBatch, batches, m, t);
    ListedOnce(apis, t);
  }

  /** `runTest` with the browser, the clock and the waits as parameters: stamp
      the start, run the batches, then finalise. */
  method RunTest(results: LoadTestResults, cfg: Config, completions: seq<seq<Completion>>,
                 startTime: Timestamp, endTime: Timestamp)
    returns (delaysAfter: seq<nat>)
    requires results.Valid()
    requires |completions| == cfg.totalBatches
    requires RunCompletes(completions, |results.apis| * cfg.requestsPerBatch)
    modifies results
    ensures results.Valid()
    ensures results.summary.startTime == Some(startTime)
    ensures results.summary.endTime == Some(endTime)
    ensures results.summary.counts ==
      TallyLog(old(results.summary.counts), RunLog(BatchItems(results.apis, cfg.requestsPerBatch), completions))
    ensures results.summary.counts.totalRequests ==
      old(results.summary.counts.totalRequests) + |results.apis| * cfg.requestsPerBatch * cfg.totalBatches
    ensures results.apiResults.Keys == old(results.apiResults).Keys
    ensures forall t :: t in results.apiResults ==>
      Finalized(ApplyLog(old(results.apiResults), RunLog(BatchItems(results.apis, cfg.requestsPerBatch), completions))[t],
                results.apiResults[t])
    ensures forall t :: t in results.apiResults ==>
      results.apiResults[t].counts.totalRequests ==
        old(results.apiResults[t].counts.totalRequests) + multiset(results.apis)[t] * cfg.requestsPerBatch * cfg.totalBatches
    ensures forall t :: t in results.apiResults ==>
      |results.apiResults[t].responseTimesMs| ==
        old(|results.apiResults[t].responseTimesMs|) + multiset(results.apis)[t] * cfg.requestsPerBatch * cfg.totalBatches
    ensures Distinct(results.apis) ==> forall t :: t in results.apiResults ==>
      results.apiResults[t].counts.totalRequests ==
        old(results.apiResults[t].counts.totalRequests) + cfg.requestsPerBatch * cfg.totalBatches
    ensures delaysAfter == DelaySchedule(cfg.totalBatches)
  {
    ghost var table0 := results.apiResults;
    ghost var counts0 := results.summary.counts;
    results.Start(startTime);
    delaysAfter := RunBatches(results, cfg, completions);
    results.FinalizeResults(endTime);
    RunTotal(results.apis, cfg.requestsPerBatch, completions, counts0);
    forall t | t in results.apiResults
      ensures results.apiResults[t].counts.totalRequests ==
        table0[t].counts.totalRequests + multiset(results.apis)[t] * cfg.requestsPerBatch * cfg.totalBatches
      ensures |results.apiResults[t].responseTimesMs| ==
        |table0[t].responseTimesMs| + multiset(results.apis)[t] * cfg.requestsPerBatch * cfg.totalBatches
      ensures Distinct(results.apis) ==>
        results.apiResults[t].counts.totalRequests == table0[t].counts.totalRequests + cfg.requestsPerBatch * cfg.totalBatches
    {
      TargetRunTotal(results.apis, cfg.requestsPerBatch, completions, table0, t);
      if Distinct(results.apis) {
        assert t in results.apis;
        DistinctTargetRunTotal(results.apis, cfg.requestsPerBatch, completions, table0, t);
      }
    }
  }
}
