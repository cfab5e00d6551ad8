# Synthetic event publisher — a Dafny model of its dispatch logic

The publisher generates traffic for an event-ingestion service that
deduplicates on the key (topic, event_id). One run does the following:

1. It computes how many unique pairs to use, `base_unique = max(1, int(COUNT * (1 - DUP_RATE)))`.
2. It builds the pool `base_pairs`. Pair i gets a randomly drawn topic and the event id `"e-i"`.
3. It picks a pair for every event index. Index i below the pool size gets pair i. Any later index gets a random pool member, which makes it a duplicate.
4. It materializes each event with a timestamp, the `"publisher"` tag and a random payload.
5. It cuts the events into batches of `BATCH_SIZE`, flushing a final partial batch if one is left.
6. It POSTs every batch with retry: at most 30 attempts, pausing `min(2.0, 0.1*(i+1))` s after failed attempt i.
7. It folds the per-batch `accepted`/`inserted`/`duplicates` answers, in completion order, into the totals and the duplicate rate.

Modules, one per component of `publisher/publisher.py`:

- `Decimal` (decimal.dfy): the decimal rendering that `f"e-{i}"` uses.
- `Events` (events.dfy): `make_event`.
- `Pairs` (pairs.dfy): `base_unique`, `base_pairs` and `pick_topic_and_event_id`.
- `Batching` (batching.dfy): the reference cut into batches, and the partition laws.
- `Retry` (retry.dfy): `post_with_retry` and its backoff schedule.
- `Aggregate` (aggregate.dfy): the drain loop, order independence and the duplicate rate.
- `Publisher` (publisher.dfy): `main` end to end.
- `Ranges` (ranges.dfy): how many times a loop over `range(n)` runs.
- `Wrappers` (wrappers.dfy): `Option` and `Result`.

Conventions:

- Randomness and the clock are parameters. `topicDraws` holds the topic picks. A `Draw` per event index holds the duplicate pick, the timestamp and the payload number.
- Attempt `a` of the POST of batch `k` is the outcome `post(k, batch)(a)`.
- The order in which batch tasks complete is a permutation `order` of the batch indices.
- `DUP_RATE` is the exact fraction `num/den`.
- Pauses are counted in tenths of a second, so the pause after failed attempt i is `min(20, i+1)`.

Where the design description and the code differ, the model follows the code:

- The summary divides by `received` without a guard. `Publisher.Run` follows the code and raises a division by zero when every batch succeeded but nothing was received. `Publisher.RunGuarded` carries the corrected rate, which is 0 in that case (see Findings).
- A pause follows the final failed attempt too, before the error is raised.
- A `BATCH_SIZE` below 1 sends every event in a batch of its own, because the flush test `len(batch) >= BATCH_SIZE` runs after the append.
- A negative `COUNT` sends nothing.

## Model

| member | source | states |
|---|---|---|
| Decimal.Digits | publisher/publisher.py:47 | the rendering of i is non-empty, all decimal digits, with no leading zero unless i is 0 |
| Decimal.ValueOfDigits | publisher/publisher.py:47 | reading the rendering of n back as a decimal number gives n |
| Decimal.DigitsInjective | publisher/publisher.py:47 | distinct indices render to distinct digit strings |
| Events.MakeEvent | publisher/publisher.py:15-23 | the event's key is the given (topic, event_id), its source is "publisher", its timestamp is the clock reading and its payload is within 0..10_000_000 |
| Pairs.BaseUnique | publisher/publisher.py:41 | base_unique is at least 1, is 1 when COUNT*(1-DUP_RATE) < 1, and otherwise is exactly the floor of COUNT*(1-DUP_RATE) |
| Pairs.AllDuplicatesLeavesOnePair | publisher/publisher.py:41 | with DUP_RATE = 1 base_unique is exactly 1 for any COUNT |
| Pairs.NoDuplicatesGivesCount | publisher/publisher.py:41 | with DUP_RATE = 0 and COUNT >= 1 base_unique equals COUNT |
| Pairs.BaseUniqueAtMostCount | publisher/publisher.py:41 | for DUP_RATE in [0, 1] and COUNT >= 1 the pool is no larger than the run |
| Pairs.EventId | publisher/publisher.py:47 | the event id is "e-" followed by the decimal rendering of the index |
| Pairs.EventIdInjective | publisher/publisher.py:47 | equal event ids come from equal indices |
| Pairs.BasePairs | publisher/publisher.py:44-48 | the pool has exactly base_unique pairs; pair k has a topic from TOPICS and event id "e-k" |
| Pairs.BasePairsDistinct | publisher/publisher.py:44-48 | the pool's pairs are pairwise distinct whatever topics were drawn |
| Pairs.BuildBasePairs | publisher/publisher.py:44-48 | the append loop yields exactly the pool: base_unique pairwise-distinct pairs with pair k = (drawn topic, "e-k") |
| Pairs.PickTopicAndEventId | publisher/publisher.py:50-55 | the pick is always a pool member, and for i < base_unique it is base_pairs[i] |
| Pairs.UniquePrefixIsFixed | publisher/publisher.py:50-53 | the pick for an index below base_unique is base_pairs[i] whatever the duplicate draw |
| Batching.EffectiveSize | publisher/publisher.py:70 | the size the flush test realises is at least 1 and equals BATCH_SIZE when BATCH_SIZE >= 1 |
| Batching.ChunksIsBatching | publisher/publisher.py:64-74 | the reference cut concatenates back to the events, has no empty batch, no batch above the size, and all but the last batch full |
| Batching.BatchingIsUnique | publisher/publisher.py:64-74 | any cut with those partition properties is the reference cut |
| Batching.ChunksCount | publisher/publisher.py:64-74 | the number of batches is ceil(COUNT / BATCH_SIZE) |
| Batching.LastChunkSize | publisher/publisher.py:73-74 | the last batch holds COUNT mod BATCH_SIZE events when that is non-zero, else a full batch |
| Batching.ChunksAppend | publisher/publisher.py:70-72 | cutting a whole number of full batches and then the rest is the cut of the whole |
| Batching.ChunksFlushFull | publisher/publisher.py:70-72 | flushing a full buffer extends the batches cut so far by exactly that buffer |
| Batching.ChunksFlushRest | publisher/publisher.py:73-74 | after the loop the leftover buffer, when non-empty, is the final batch |
| Ranges.RangeLength | publisher/publisher.py:28 | range(n) runs n times, or not at all when n is negative; it gives the POST attempts of a call and the event indices of a run |
| Retry.Delay | publisher/publisher.py:35 | the pause after failed attempt i is between 1 and 20 tenths, at most i+1, and is either i+1 or the 2.0 s cap |
| Retry.DelayMonotone | publisher/publisher.py:35 | pauses never decrease from one failed attempt to the next |
| Retry.DelaySchedule | publisher/publisher.py:28-35 | the pauses after the first n failures are Delay(0) .. Delay(n-1) in order |
| Retry.TotalDelayClosedForm | publisher/publisher.py:28-35 | n failed attempts pause n(n+1)/2 tenths up to 20 attempts, then 21 s plus 2 s per further attempt |
| Retry.ScheduleSumsToTotal | publisher/publisher.py:28-35 | the pauses of the schedule after n failed attempts add up to the total pause TotalDelay(n) |
| Retry.DefaultExhaustionPause | publisher/publisher.py:26-36 | with the default 30 retries the schedule of a call that never succeeds adds up to 41 s |
| Retry.FirstOk | publisher/publisher.py:28-32 | finds the first successful attempt below the limit, with every earlier attempt failed, or reports that all failed |
| Retry.RetrySucceedsAt | publisher/publisher.py:28-32 | if attempts 1..N-1 fail and attempt N <= retries succeeds, the call returns attempt N's response |
| Retry.RetryExhausts | publisher/publisher.py:28-36 | if every attempt fails, the call raises the exhaustion error carrying the last attempt's failure |
| Retry.PostWithRetry | publisher/publisher.py:26-36 | at most retries POSTs; returns the first success after failures only; raises with the last error after exactly retries failures; pauses Delay(0..) after each failure, and the pauses of a call that raises add up to TotalDelay(retries) |
| Aggregate.Get | publisher/publisher.py:82-84 | a missing key counts as 0, a present one gives its value |
| Aggregate.SumAppend | publisher/publisher.py:79-84 | the sum over two runs of responses is the sum of their sums |
| Aggregate.SumPermutation | publisher/publisher.py:79-84 | the sum of a counter does not depend on the order of the responses |
| Aggregate.FoldPermutation | publisher/publisher.py:79-84 | received, inserted and dup are the same for every completion order |
| Aggregate.FoldBalanced | publisher/publisher.py:79-84 | if every batch answer has accepted == inserted + duplicates, then received == inserted + dup |
| Aggregate.FoldNonNegative | publisher/publisher.py:79-84 | non-negative batch answers give non-negative totals |
| Aggregate.Drain | publisher/publisher.py:76-84 | the drain yields totals exactly when no completion failed, and they are the fold of the answers; otherwise it raises the first failure in completion order |
| Aggregate.Reorder | publisher/publisher.py:79 | position k of the completion sequence holds the result of batch order[k] |
| Aggregate.ReorderPermutes | publisher/publisher.py:79 | completing in the order of a permutation keeps every batch result exactly once |
| Aggregate.CompletionOrderIrrelevant | publisher/publisher.py:79-84 | for every completion order the completion sequence holds the same results, so every failure met there is a batch's failure; all succeed exactly when all batches succeeded, and the totals equal those of submission order |
| Aggregate.DupRateAsWritten | publisher/publisher.py:86-88 | dup/received as written fails with a division by zero exactly when received is 0, and otherwise is dup over received |
| Aggregate.EmptyRunRaisesAtSummary | publisher/publisher.py:76-88 | a run with no batch answers reaches the summary with received 0 and raises |
| Aggregate.DupRate | publisher/publisher.py:86-88 | the guarded rate is 0 when received is 0 and dup/received otherwise |
| Aggregate.DupRateAgrees | publisher/publisher.py:86-88 | wherever the unguarded division succeeds, the guarded rate is the same fraction |
| Aggregate.DupRateInUnitInterval | publisher/publisher.py:86-88 | balanced, non-negative totals give a rate between 0 and 1 |
| Publisher.StreamKeys | publisher/publisher.py:67-69 | event i carries the publisher tag, its own timestamp and a pool pair as key, and for i < base_unique the key is base_pairs[i] |
| Publisher.EveryPairEmitted | publisher/publisher.py:50-53 | when the run is at least as long as the pool, the set of keys sent is exactly the pool |
| Publisher.BuildBatches | publisher/publisher.py:64-74 | the loop's batches are the reference cut of the event stream: a partition in index order with ceil(COUNT/BATCH_SIZE) batches |
| Publisher.BatchResults | publisher/publisher.py:60-62 | one post_with_retry result per batch, in submission order |
| Publisher.Dispatch | publisher/publisher.py:39-84 | up to the summary line the run yields totals exactly when every batch's retry succeeded, and they are the totals of all batch answers in any completion order; otherwise it raises a failed batch's exhaustion error |
| Publisher.Run | publisher/publisher.py:39-89 | the run prints a summary exactly when every batch's retry succeeded and something was received, with those totals and dup/received; it raises a division by zero exactly when every batch succeeded but nothing was received; a failed batch makes it raise that batch's exhaustion error |
| Publisher.RunGuarded | publisher/publisher.py:39-89 | with the zero guard on the rate the run yields a summary exactly when every batch succeeded, with the totals and the guarded rate; otherwise a failed batch's exhaustion error |
| Publisher.EmptyRunReachesZeroDivision | publisher/publisher.py:67-88 | with COUNT <= 0 no batch is sent, so as written the summary divides by zero, and with the guard the rate is 0 |
| Publisher.ScenarioTenEvents | publisher/publisher.py:41-48 | COUNT 10, DUP_RATE 0.3, batch size 5, topic "t": seven pairs ("t","e-0")..("t","e-6") and two batches |
| Publisher.ScenarioAllDuplicates | publisher/publisher.py:41-48 | DUP_RATE 1 and COUNT 1: one pair, carried by the single event |

## Left out

- HTTP: the httpx client, `raise_for_status`, JSON decoding and the 30 s timeout are one abstract outcome per attempt. JSON values that are not integers are not modelled.
- Concurrency is not modelled: the `asyncio.Semaphore` bound of CONCURRENCY in-flight calls, `create_task`, `as_completed` and `asyncio.sleep`. The batch calls run one after another, pauses are returned as a schedule, and completion order is an arbitrary permutation. The in-flight bound cannot be stated in a sequential model.
- Tasks still pending when one batch fails are not modelled.
- Reading the environment is not modelled. TARGET_URL and CONCURRENCY do not appear. TOPICS is the list after the split.
- `datetime.now` and `random` are parameters. Nothing is modelled about the distribution of the draws.
- Floating point is not modelled. DUP_RATE is an exact fraction, so the rounding of `COUNT * (1.0 - DUP_RATE)` in binary floating point is not captured. Pauses are exact tenths.
- The `print` of the summary line, including the `.2%` formatting, is not modelled. The rate is a fraction.
- The tests under test/ and the k6 script are not modelled. They drive the external ingestion service, whose code is not part of this model.
- Publisher.Run: states that a raised batch error is the exhaustion error of some failed batch, but not which one (`Aggregate.Drain` states that it is the first failure in completion order). The same holds for Publisher.Dispatch and Publisher.RunGuarded.
- Pairs.PickTopicAndEventId: for a later index it states only that the pick is a pool member; that `random.choice` is uniform is not modelled.

## Findings

| source | as written | input that shows it | evidently intended | confidence | as-written member | corrected member |
|---|---|---|---|---|---|---|
| publisher/publisher.py:86-88 | the summary computes `dup/received` with no guard, so it raises ZeroDivisionError when `received == 0`; `Publisher.Run` models the whole run this way | COUNT = 0: no batch is sent, every total is 0, and the summary line divides by zero | report a duplicate rate of 0 when nothing was received, as `Publisher.RunGuarded` does | medium, not executed | Aggregate.DupRateAsWritten | Aggregate.DupRate |
