# API load tester — verified model of the aggregation core

`api-load-tester.js` fires batches of GET requests at a list of target URLs.
Each request goes through either an HTTP client or a headless browser. Each
attempt becomes an outcome record `{success, statusCode, responseTime,
rateLimited, error}`. The outcomes are counted into a run summary and into
one record per target. At the end the script sorts each target's latency
samples and derives min, max, mean, median, p95 and p99.

This project models that core in Dafny and proves what it promises.

- `outcomes.dfy` (`Outcomes`) holds the two classification functions, from
  what the transport reported to an outcome.
- `statistics.dfy` (`Statistics`) holds the in-place sort of the samples and
  the nearest-rank statistics read off the sorted list.
- `aggregator.dfy` (`Aggregator`) holds the results store as the class
  `LoadTestResults`:
  - fields: the summary and the map from target to record;
  - methods: `ProcessResult` (`processResult`), `FinalizeResults`
    (`finalizeResults`) and `Start`;
  - specification functions over a log of `processResult` calls: `TallyLog`,
    `RecordAll`, `ForTarget` and `ApplyLog`.
- `scheduler.dfy` (`Scheduler`) holds the `runTest` batch loop:
  - the enumeration of work items, target-major;
  - the processing of each batch's completions in whatever order they
    arrive;
  - the waits between batches;
  - the run totals.
- `sequences.dfy` (`Sequences`) and `wrappers.dfy` (`Wrappers`) are generic
  helpers: sums over sequences, and `Option`.

The environment is passed in as parameters:
- **Target list.** The script reads it from a global `APIs` that is never
  defined (its only definition is commented out), so here it is the
  constructor argument of `LoadTestResults`.
- **Transports.** What the HTTP client or the browser reported is a value
  (`HttpReply`, `BrowserReply`).
- **Clock.** Timestamps and response times are inputs.
- **Concurrency.** The concurrency limiter lets requests finish in any order.
  A batch is therefore given as a sequence of completions
  `(work-item index, outcome, time)`, and `RunCompletes` requires them to be a
  permutation of the batch's work items.

The shared `results` object is updated in place, and the model shows this
with a class whose methods have `modifies` clauses. Its invariant
`TableInvariant` says:
- the record keys are exactly the configured targets;
- every record is coherent:
  - `totalRequests == successfulRequests + failedRequests`;
  - `rateLimited <= totalRequests`;
  - one latency sample per request;
  - one error record per failure;
- the summary counters are the sum of the per-target counters.

Three behaviours of the code are easy to miss:
- **No clamp.** The percentile indices `floor(n*0.95)` and `floor(n*0.99)`
  need no clamp: `RankIndicesInBounds` shows they are below `n` for every
  `n > 0`. The model writes them as the integer divisions `95*n/100` and
  `99*n/100`. For every array length below 2^32 these equal the floors of
  the double-precision products: the doubles nearest 0.95 and 0.99 err by
  less than half the spacing of doubles near a whole-valued product, and a
  product that is not whole is at least 0.01 away from the next integer.
- **Duplicate targets.** They share a record, because `apiResults` is keyed
  by URL. The per-target totals count a target once for each time it is
  listed (`multiset(apis)[t]`).
- **Browser failures.** A browser request that fails on its HTTP status
  carries no `error` object; only a thrown exception does
  (`BrowserHttpFailureHasNoDetail`).

## Model

| member | source | states |
|---|---|---|
| Outcomes.AxiosOutcome | api-load-tester.js:80-100 | Success exactly on a resolved response. On rejection the status is the response's status or 0, and the error is `{message, code}`. Rate-limited exactly when the status is 429; error present exactly on failure. |
| Outcomes.PuppeteerOutcome | api-load-tester.js:117-163 | Success exactly when the captured status is 2xx. The status is 0 when no response for the URL was seen, or after an exception. Rate-limited exactly when the status is 429, and then never a success. Only an exception carries an error `{message, stack}`. |
| Outcomes.ThrottledIsRateLimitedFailure | api-load-tester.js:91-100 | A 429 is classified as a rate-limited failure with status 429 by both requesters (the HTTP client rejecting non-2xx). |
| Outcomes.BrowserHttpFailureHasNoDetail | api-load-tester.js:141-147 | A browser navigation with a non-2xx status is a failure without error detail. |
| Aggregator.Tally | api-load-tester.js:171-190 | One call raises the total by one, exactly one of success and failure by one (success exactly when the outcome succeeded), and rate-limited by one exactly when the outcome was rate-limited; no counter ever decreases; consistent counters stay consistent. |
| Aggregator.Record | api-load-tester.js:171-192 | One call on a target's record: counters tallied; the latency appended after the old samples; on failure one error record {time, statusCode, error} appended, on success errors unchanged; statistics untouched. |
| Statistics.RankIndicesInBounds | api-load-tester.js:225-227 | For n > 0 the median, p95 and p99 indices are ordered and below n; no clamp is needed. |
| Statistics.MedianIndex | api-load-tester.js:225 | The median rank is floor(n / 2): 2r ≤ n < 2r + 2, and it is below n when n > 0. |
| Statistics.P95Index | api-load-tester.js:226 | The p95 rank is floor(0.95 n): 100r ≤ 95n < 100r + 100, and it is below n when n > 0. |
| Statistics.P99Index | api-load-tester.js:227 | The p99 rank is floor(0.99 n): 100r ≤ 99n < 100r + 100, and it is below n when n > 0. |
| Statistics.Total | api-load-tester.js:222-224 | The sum of the samples (the `reduce`): 0 for no samples, and at least every sample. |
| Statistics.StatsOfSorted | api-load-tester.js:219-228 | The statistics of a sorted list count its samples and satisfy min ≤ median ≤ p95 ≤ p99 ≤ max. |
| Statistics.SortInPlace | api-load-tester.js:216 | The array ends up sorted ascending and is a permutation of its old contents. |
| Statistics.SortedUnique | api-load-tester.js:216 | Two sorted arrangements of the same samples are equal, so the sorted result is determined by the samples. |
| Statistics.TotalBounds | api-load-tester.js:222-224 | The sum of a sorted list lies between n times its first and n times its last sample. |
| Statistics.DescribesSamples | api-load-tester.js:212-228 | Statistics from the sorted arrangement have count and sum equal to the original samples. Min and max bound every sample. Min, max, median, p95 and p99 are all actual samples, and min·n ≤ sum ≤ max·n. |
| Statistics.StatsIgnoreArrivalOrder | api-load-tester.js:212-228 | The statistics depend only on the multiset of samples, so arrival order does not matter and re-sorting sorted data changes nothing. |
| Statistics.UniformSamples | api-load-tester.js:216-228 | When all samples equal v, every statistic is v (the sum is v·n). |
| Statistics.FiveSampleExample | api-load-tester.js:216-228 | Samples 50, 10, 30, 20, 40 give min 10, max 50, sum 150 over 5, median 30, p95 50, p99 50. |
| Statistics.FiveSampleSorted | api-load-tester.js:216 | 10, 20, 30, 40, 50 is sorted and is an arrangement of 50, 10, 30, 20, 40. |
| Statistics.FiveSampleStats | api-load-tester.js:216-228 | The statistics of the sorted list 10..50 are min 10, max 50, sum 150 over 5, median 30, p95 50, p99 50. |
| Statistics.FiveSampleTotal | api-load-tester.js:222-224 | The five samples 10..50 sum to 150. |
| Statistics.SortAndSummarize | api-load-tester.js:212-228 | Returns the samples sorted (a permutation) together with their statistics. The sum equals the samples' sum, and min and max bound every sample. |
| Sequences.SumOfPermutation | api-load-tester.js:222-224 | A sum over a sequence does not depend on the order of its elements. |
| Aggregator.RecordKeepsCoherent | api-load-tester.js:170-192 | One `processResult` step keeps a record coherent: total = success + failure, rate-limited ≤ total, one sample per request, one error per failure. |
| Aggregator.TallyLogCounts | api-load-tester.js:170-189 | After a log of calls: total grows by the log length, successes by the successful entries, failures by the failed ones, rate-limited by the rate-limited ones. |
| Aggregator.TallyLogConsistent | api-load-tester.js:170-189 | Consistent counters stay consistent after any log of calls. |
| Aggregator.TallyLogIgnoresOrder | api-load-tester.js:170-189 | Two logs holding the same multiset of calls (target, outcome, time) give the same counters, so completion order does not matter. |
| Aggregator.AllThrottled | api-load-tester.js:187-190 | A log of rate-limited outcomes raises the rate-limited counter by its length, as much as the total. |
| Aggregator.AllSucceeded | api-load-tester.js:173-176 | A log of successful outcomes raises the success counter by its length and leaves the failure counter unchanged. |
| Aggregator.RecordAllEffect | api-load-tester.js:170-192 | After a log: counters tallied, samples appended in processing order, one error record appended per failure in order, statistics untouched. |
| Aggregator.RecordAllCoherent | api-load-tester.js:170-192 | A coherent record stays coherent after any log of calls. |
| Aggregator.ForTargetCount | api-load-tester.js:171-172 | The number of calls for one target is the multiplicity of that target in the log. |
| Aggregator.ForTargetAppend | api-load-tester.js:171-172 | The calls for one target in a + b are its calls in a followed by its calls in b. |
| Aggregator.RecordAllAppend | api-load-tester.js:170-192 | Recording log a, then log b, into a record equals recording a + b. |
| Aggregator.ApplyLogStep | api-load-tester.js:170-192 | Processing one more call changes only the record of its target. |
| Aggregator.ApplyLog | api-load-tester.js:170-192 | The table after a sequence of `processResult` calls keeps its key set, and a target named by no call keeps its record. |
| Aggregator.ApplyLogAt | api-load-tester.js:170-192 | After a log, each target's record is its initial record after exactly the calls naming that target, in processing order. |
| Aggregator.ForTargetMultiset | api-load-tester.js:171-172 | The calls for one target hold every call naming it, as often as the log holds it, and no other call. |
| Aggregator.LatenciesPermutation | api-load-tester.js:192 | The same calls in another order push the same latency samples, in another order. |
| Aggregator.FailureRecordsPermutation | api-load-tester.js:177-184 | The same calls in another order push the same error records, in another order. |
| Aggregator.ApplyLogIgnoresOrder | api-load-tester.js:170-192 | Two orders of the same calls give every target the same counters, the same multiset of latency samples, the same multiset of error records and the same statistics field. |
| Aggregator.FinalizedIgnoresOrder | api-load-tester.js:170-228 | After finalisation, two orders of the same calls give every target identical sorted samples, statistics and counters; only the order of its error records can differ. |
| Aggregator.TallyLogAppend | api-load-tester.js:170-189 | Tallying log a, then log b, equals tallying a + b. |
| Aggregator.ApplyLogAppend | api-load-tester.js:170-192 | Applying log a, then log b, to the table equals applying a + b. |
| Aggregator.TotalsAfterTally | api-load-tester.js:170-189 | Tallying the same outcome into the summary and into one target's record keeps the summary equal to the sum over targets. |
| Aggregator.TotalsConsistent | api-load-tester.js:36-58 | A sum of consistent records is consistent. |
| Aggregator.TotalsOfEmptyRecords | api-load-tester.js:49-58 | Fresh records sum to zero counters. |
| Aggregator.ProcessKeepsTable | api-load-tester.js:170-192 | Tallying one outcome into the summary and recording it into a known target's record keeps the table invariant. |
| Aggregator.FinalizeRecord | api-load-tester.js:212-228 | A record without samples is unchanged. Otherwise its samples are sorted (a permutation), its statistics are set from them, and counters and errors are kept. |
| Aggregator.FinalizeRecords | api-load-tester.js:212-230 | Every record of the table is finalised as above, and the key set is unchanged. |
| Aggregator.FinalizeKey | api-load-tester.js:213-227 | Finalising one more key leaves the keys and every untouched record as they were, and the finalised keys grow by that key. |
| Aggregator.FinalizeIdempotent | api-load-tester.js:212-230 | Finalising an already finalised record gives the same record. |
| Aggregator.FinalizedKeepsCoherent | api-load-tester.js:212-228 | Finalisation keeps a record coherent. |
| Aggregator.FinalizedTableInvariant | api-load-tester.js:209-230 | Finalisation keeps the table invariant (keys, coherence, summary = sum of records). |
| Aggregator.InitStep | api-load-tester.js:49-58 | Giving one more configured target an empty record keeps the loop invariant: the map keys and the key list are exactly the targets seen so far, the list has no repeats, and every record is empty. |
| Aggregator.InitialTable | api-load-tester.js:49-58 | The `forEach` over `APIs` builds one empty record per configured target (a duplicate listing overwrites its record with another empty one); the table invariant holds with zero summary counters. |
| Aggregator.LoadTestResults.constructor | api-load-tester.js:36-58 | One empty record per configured target, zero summary counters, no timestamps; the invariant holds. |
| Aggregator.LoadTestResults.SummaryConsistent | api-load-tester.js:36-46 | Under the invariant: total = successful + failed, and rate-limited ≤ total. |
| Aggregator.LoadTestResults.Start | api-load-tester.js:285 | Sets the start time and changes nothing else. |
| Aggregator.LoadTestResults.ProcessResult | api-load-tester.js:170-192 | Tallies the outcome into the summary and into its target's record. Appends the sample, and an error record on failure; other targets are unchanged; the invariant is kept. |
| Aggregator.LoadTestResults.FinalizeResults | api-load-tester.js:209-230 | Stamps the end time and finalises every record, keeping the keys and the invariant. Idempotent on records that are already final. |
| Scheduler.BatchItems | api-load-tester.js:302-314 | A batch has \|APIs\| × requestsPerBatch work items. |
| Scheduler.BatchItemAt | api-load-tester.js:302-314 | Work item q·rpb + r targets the q-th configured target (target-major order). |
| Scheduler.BatchItemsAreTargets | api-load-tester.js:302-314 | Every work item targets a configured target. |
| Scheduler.BatchItemsCount | api-load-tester.js:302-314 | In one batch a target occurs `requestsPerBatch` times per listing. |
| Scheduler.BatchLog | api-load-tester.js:304-311 | The calls of one batch: one per completion, and the j-th call is for the target of the j-th completed item, with that completion's outcome and time. |
| Scheduler.RunLog | api-load-tester.js:296-337 | The calls of a whole run, batch after batch; every call names a target of the batch's work items. |
| Scheduler.EnumerateBatch | api-load-tester.js:300-314 | The nested loops build exactly `BatchItems(apis, requestsPerBatch)`. |
| Scheduler.SelectPermutation | api-load-tester.js:316-337 | Work items completed in a permuted order select a permutation of the same targets. |
| Scheduler.BatchLogTargets | api-load-tester.js:306-311 | The calls of one batch name the targets of the completed work items, in completion order. |
| Scheduler.BatchLogPermutation | api-load-tester.js:304-337 | The completions of a batch arriving in another order make the same `processResult` calls, in another order. |
| Scheduler.BatchLogCoversItems | api-load-tester.js:316-337 | When each work item completes once, the batch's calls name a permutation of the batch's work items. |
| Scheduler.RunLogLength | api-load-tester.js:296-345 | A run of B batches makes B × \|items\| calls. |
| Scheduler.RunLogTargetCount | api-load-tester.js:296-345 | A target occurs B times its per-batch multiplicity among a run's calls. |
| Scheduler.DelaySchedule | api-load-tester.js:339-344 | The batches after which the run waits: each lies between 1 and the number of batches, excluding the last batch. |
| Scheduler.DelayScheduleShape | api-load-tester.js:339-344 | A run of n batches waits n − 1 times, after batches 1 to n − 1 and never after the last. |
| Scheduler.WaitAfter | api-load-tester.js:339-344 | After batch b of n the run waits once more exactly when b < n, so the waits so far go from `DelaySchedule(b)` to `DelaySchedule(b + 1)`, or stay the same after the last batch. |
| Scheduler.ProcessBatch | api-load-tester.js:304-311 | Each completion is processed for its item's target in arrival order. The new state is the old one after that batch's log; the invariant is kept. |
| Scheduler.ProcessCompletion | api-load-tester.js:304-311 | Processing completion j moves the state from the first j calls of the batch's log to the first j + 1, keeping the invariant. |
| Scheduler.RunBatch | api-load-tester.js:302-337 | One batch: the new summary and table are the old ones after the log of that batch's completions, and the invariant is kept. |
| Scheduler.RunNextBatch | api-load-tester.js:296-338 | After batch b + 1 the state equals the start state after the log of the first b + 1 batches. |
| Scheduler.LogExtends | api-load-tester.js:296-345 | Processing one log and then another equals processing their concatenation, for the summary and for the table. |
| Scheduler.RunBatches | api-load-tester.js:296-345 | After the loop the summary and the table equal the old ones after the run's log, the invariant holds, and the waits are `DelaySchedule(totalBatches)`. |
| Scheduler.RunLogResults | api-load-tester.js:304-311 | Every call of a run carries the outcome and time of one completion of some batch, for the target of that completion's work item. |
| Scheduler.ThrottledRun | api-load-tester.js:187-190 | When every completion of a run is rate-limited, the rate-limited counter rises exactly as much as the total. |
| Scheduler.ListedOnce | api-load-tester.js:302-303 | A target listed once in `APIs` has multiplicity one; with it, the per-listing count of the loop over `APIs` becomes `requestsPerBatch` items per target per batch. |
| Scheduler.RunTotal | api-load-tester.js:296-345 | A run adds \|APIs\| × requestsPerBatch × totalBatches to the summary total. |
| Scheduler.DefaultRun | api-load-tester.js:18-23 | Under the shipped configuration (10 batches, 100 requests per target per batch) a run adds 1000 requests per listed target to the summary total and waits 9 times. |
| Scheduler.TargetRunTotal | api-load-tester.js:296-345 | A run adds multiplicity × requestsPerBatch × totalBatches requests, and as many samples, to each target. |
| Scheduler.DistinctTargetRunTotal | api-load-tester.js:296-345 | With no duplicate targets, each target gains requestsPerBatch × totalBatches requests. |
| Scheduler.RunTest | api-load-tester.js:274-351 | Stamps start and end and runs the batches, then finalises. Ends with the run totals for the summary and per target, every record finalised, the invariant and the waiting schedule. |

## Left out

- The network and the browser: requests, headers, timeouts and page events are replaced by what the transport reported (`HttpReply`, `BrowserReply`). The response body (`data`) is not modelled.
- The HTTP client's status validation: which statuses resolve and which reject is an input. Under the client's defaults a 429 rejects.
- The clock: `Date.now()` differences and ISO timestamps are inputs, and response times are naturals.
- The concurrency limiter (`executeWithConcurrency`) and JavaScript's event loop: their only effect on the results is the order in which completions are processed, which is an input.
- The wait itself (`delay`, `setTimeout`): `RunBatches` returns the batch numbers after which it waits.
- The floating-point mean: the statistics keep the sum and the count. `avgResponseTime` is their quotient, and `toFixed(2)` is presentation.
- Console logging, the JSON results file, launching and closing the browser, and `process.exit` on an uncaught error are all I/O.
- An exception thrown by `page.close()` inside the browser requester's error handler: the promise would reject, and that rejection is not modelled.
- `Aggregator.LoadTestResults.ProcessResult`: requires the target to have a record. The script only calls it with configured targets; for an unknown target it would raise the summary count and then throw.

