/**
 * `main` of the publisher: synthesize the pair pool, materialize one event
 * per index, cut the events into batches, submit every batch with retry, and
 * drain the batch results in completion order into the summary.
 *
 * The random draws and clock readings an event index consumes are one Draw;
 * the answer to attempt a of the POST of batch k is `post(k, batch)(a)`; the
 * order in which the batch tasks complete is a permutation `order` of the
 * batch indices.
 */
module Publisher {
  import opened Wrappers
  import opened Ranges
  import opened Events
  import opened Pairs
  import opened Batching
  import opened Retry
  import opened Aggregate

  /** The environment of a run: COUNT, DUP_RATE, TOPICS and BATCH_SIZE. */
  datatype Config = Config(count: int, dupRate: Ratio, topics: seq<string>, batchSize: int)

  /** What event index i draws: the duplicate pick, the clock, the payload number. */
  datatype Draw = Draw(dup: nat, now: string, rand: int)

  /** The summary line: the totals and their duplicate rate. */
  datatype Summary = Summary(totals: Totals, rate: Rate)

  /**
   * The draws are what the random source can give: a duplicate pick inside
   * a pool of `poolSize` pairs, and a payload in 0 .. 10_000_000.
   */
  predicate ValidDraws(poolSize: nat, draws: seq<Draw>) {
    forall k :: 0 <= k < |draws| ==>
      (k >= poolSize ==> draws[k].dup < poolSize) && 0 <= draws[k].rand <= RandMax
  }

  /** The event materialized for index i. */
  function EventAt(pairs: seq<Pair>, i: nat, d: Draw): (e: Event)
    requires |pairs| > 0
    requires i >= |pairs| ==> d.dup < |pairs|
    requires 0 <= d.rand <= RandMax
  {
    var p := PickTopicAndEventId(pairs, i, d.dup);
    MakeEvent(p.topic, p.eventId, d.now, d.rand)
  }

  /** The events of a run in index order. */
  function EventStream(pairs: seq<Pair>, draws: seq<Draw>): (s: seq<Event>)
    requires |pairs| > 0 && ValidDraws(|pairs|, draws)
  {
    seq(|draws|, i requires 0 <= i < |draws| => EventAt(pairs, i, draws[i]))
  }

  /**
   * Every event carries the publisher tag and a pool pair as its key; the
   * event at an index below the pool size carries that index's own pair.
   */
  lemma StreamKeys(pairs: seq<Pair>, draws: seq<Draw>)
    requires |pairs| > 0 && ValidDraws(|pairs|, draws)
    ensures |EventStream(pairs, draws)| == |draws|
    ensures forall i :: 0 <= i < |draws| ==>
              var e := EventStream(pairs, draws)[i];
              e.source == PublisherSource && e.timestamp == draws[i].now && Key(e) in pairs
              && (i < |pairs| ==> Key(e) == pairs[i])
  {
  }

  /** When the run is at least as long as the pool, every pool pair is sent. */
  lemma EveryPairEmitted(pairs: seq<Pair>, draws: seq<Draw>)
    requires |pairs| > 0 && ValidDraws(|pairs|, draws)
    requires |pairs| <= |draws|
    ensures (set e | e in EventStream(pairs, draws) :: Key(e)) == set p | p in pairs
  {
    var s := EventStream(pairs, draws);
    StreamKeys(pairs, draws);
    forall p | p in pairs
      ensures p in (set e | e in s :: Key(e))
    {
      var i :| 0 <= i < |pairs| && pairs[i] == p;
      assert Key(s[i]) == p && s[i] in s;
    }
    forall q | q in (set e | e in s :: Key(e))
      ensures q in pairs
    {
      var e :| e in s && Key(e) == q;
      var i :| 0 <= i < |s| && s[i] == e;
    }
  }

  /**
   * The loop of `main` over range(COUNT): append the event of each index to
   * the buffer and flush it as a batch once `len(batch) >= BATCH_SIZE`; after
   * the loop flush the buffer if it is not empty.
   */
  method BuildBatches(pairs: seq<Pair>, draws: seq<Draw>, batchSize: int) returns (batches: seq<seq<Event>>)
    requires |pairs| > 0 && ValidDraws(|pairs|, draws)
    ensures batches == Chunks(EventStream(pairs, draws), EffectiveSize(batchSize))
    ensures IsBatching(batches, EventStream(pairs, draws), EffectiveSize(batchSize))
    ensures |batches| == BatchCount(|draws|, EffectiveSize(batchSize))
  {
    ghost var events := EventStream(pairs, draws);
    ghost var n := EffectiveSize(batchSize);
    ghost var start := 0;
    batches := [];
    var batch: seq<Event> := [];
    for i := 0 to |draws|
      invariant start <= i && start % n == 0
      invariant batches == Chunks(events[..start], n)
      invariant batch == events[start..i] && |batch| < n
    {
      var p := PickTopicAndEventId(pairs, i, draws[i].dup);
      batch := batch + [MakeEvent(p.topic, p.eventId, draws[i].now, draws[i].rand)];
      assert batch == events[start..i + 1];
      if |batch| >= batchSize {
        ChunksFlushFull(events, start, n);
        batches := batches + [batch];
        batch := [];
        start := i + 1;
      }
    }
    ChunksFlushRest(events, start, n);
    if batch != [] {
      assert batch == events[start..];
      batches := batches + [batch];
    } else {
      assert Chunks(events, n) == Chunks(events[..start], n) + [];
    }
    ChunksIsBatching(events, n);
    ChunksCount(events, n);
  }

  /** The pool of a run. */
  function RunPairs(cfg: Config, topicDraws: seq<nat>): (ps: seq<Pair>)
    requires cfg.dupRate.den > 0
    requires |topicDraws| >= BaseUnique(cfg.count, cfg.dupRate)
    requires forall k :: 0 <= k < BaseUnique(cfg.count, cfg.dupRate) ==> topicDraws[k] < |cfg.topics|
  {
    BasePairs(cfg.topics, topicDraws, BaseUnique(cfg.count, cfg.dupRate))
  }

  /** What each batch task's post_with_retry call returns or raises, in submission order. */
  function BatchResults(batches: seq<seq<Event>>, post: (nat, seq<Event>) -> nat -> Outcome<Response>)
    : (rs: seq<Result<Response, RetryError>>)
    ensures |rs| == |batches|
  {
    seq(|batches|, k requires 0 <= k < |batches| => RetryResult(post(k, batches[k]), DefaultRetries))
  }

  /** What `main` can raise: a batch's exhaustion error, or the summary's division by zero. */
  datatype RunError = BatchFailed(cause: RetryError) | SummaryRaised(reason: SummaryError)

  /** The precondition a run's inputs meet: draws the random source and the config can give. */
  predicate ValidRun(cfg: Config, topicDraws: seq<nat>, draws: seq<Draw>, order: seq<nat>) {
    && cfg.dupRate.den > 0
    && |topicDraws| >= BaseUnique(cfg.count, cfg.dupRate)
    && (forall k :: 0 <= k < BaseUnique(cfg.count, cfg.dupRate) ==> topicDraws[k] < |cfg.topics|)
    && |draws| == RangeLength(cfg.count)
    && ValidDraws(BaseUnique(cfg.count, cfg.dupRate), draws)
    && IsPermutation(order, BatchCount(|draws|, EffectiveSize(cfg.batchSize)))
  }

  /** The batch results a run's tasks produce, in submission order. */
  function RunResults(cfg: Config, topicDraws: seq<nat>, draws: seq<Draw>,
                      post: (nat, seq<Event>) -> nat -> Outcome<Response>): seq<Result<Response, RetryError>>
    requires cfg.dupRate.den > 0
    requires |topicDraws| >= BaseUnique(cfg.count, cfg.dupRate)
    requires forall k :: 0 <= k < BaseUnique(cfg.count, cfg.dupRate) ==> topicDraws[k] < |cfg.topics|
    requires ValidDraws(BaseUnique(cfg.count, cfg.dupRate), draws)
  {
    BatchResults(Chunks(EventStream(RunPairs(cfg, topicDraws), draws), EffectiveSize(cfg.batchSize)), post)
  }

  /**
   * `main` up to the summary line: build the pool and the batches, submit
   * every batch with retry and drain the results in completion order. It
   * yields totals exactly when every batch task succeeded, and they are the
   * totals of all batch answers in any order; otherwise it raises the
   * exhaustion error of a failed batch.
   */
  method Dispatch(cfg: Config, topicDraws: seq<nat>, draws: seq<Draw>,
                  post: (nat, seq<Event>) -> nat -> Outcome<Response>, order: seq<nat>)
    returns (r: Result<Totals, RetryError>)
    requires ValidRun(cfg, topicDraws, draws, order)
    ensures var results := RunResults(cfg, topicDraws, draws, post);
            && (r.Success? <==> forall k :: 0 <= k < |results| ==> results[k].Success?)
            && (r.Success? ==> r.value == Fold(Values(results)))
            && (r.Failure? ==> exists k :: 0 <= k < |results| && results[k] == Failure(r.error))
  {
    var baseUnique := BaseUnique(cfg.count, cfg.dupRate);
    var pairs := BuildBasePairs(baseUnique, cfg.topics, topicDraws);
    var batches := BuildBatches(pairs, draws, cfg.batchSize);
    ghost var expected := BatchResults(batches, post);
    assert pairs == RunPairs(cfg, topicDraws);
    assert expected == RunResults(cfg, topicDraws, draws, post);

    var results: seq<Result<Response, RetryError>> := [];
    for k := 0 to |batches|
      invariant results == expected[..k]
    {
      var res, _, _ := PostWithRetry(post(k, batches[k]), DefaultRetries);
      results := results + [res];
    }
    assert results == expected;

    CompletionOrderIrrelevant(results, order);
    var completed := Reorder(results, order);
    r := Drain(completed);
    if r.Failure? {
      var k :| 0 <= k < |completed| && completed[k] == Failure(r.error);
      assert results[order[k]] == Failure(r.error);
    }
  }

  /**
   * The whole run as written: the summary exactly when every batch task
   * succeeded and something was received, with the totals of the batch
   * answers and dup/received; a division by zero when every batch succeeded
   * but nothing was received; otherwise a failed batch's exhaustion error.
   */
  method Run(cfg: Config, topicDraws: seq<nat>, draws: seq<Draw>,
             post: (nat, seq<Event>) -> nat -> Outcome<Response>, order: seq<nat>)
    returns (r: Result<Summary, RunError>)
    requires ValidRun(cfg, topicDraws, draws, order)
    ensures var results := RunResults(cfg, topicDraws, draws, post);
            var allOk := forall k :: 0 <= k < |results| ==> results[k].Success?;
            && (r.Success? <==> allOk && Fold(Values(results)).received != 0)
            && (r.Success? ==> r.value.totals == Fold(Values(results))
                               && DupRateAsWritten(r.value.totals) == Success(r.value.rate))
            && (r == Failure(SummaryRaised(ZeroDivision)) <==> allOk && Fold(Values(results)).received == 0)
            && (!allOk ==> r.Failure? && r.error.BatchFailed?)
            && (r.Failure? && r.error.BatchFailed? ==>
                  exists k :: 0 <= k < |results| && results[k] == Failure(r.error.cause))
  {
    var drained := Dispatch(cfg, topicDraws, draws, post, order);
    match drained
    case Failure(e) =>
      r := Failure(BatchFailed(e));
    case Success(totals) =>
      match DupRateAsWritten(totals)
      case Failure(z) =>
        r := Failure(SummaryRaised(z));
      case Success(rate) =>
        r := Success(Summary(totals, rate));
  }

  /**
   * The run with the zero guard on the summary: the summary exactly when
   * every batch task succeeded, with the guarded rate; otherwise a failed
   * batch's exhaustion error.
   */
  method RunGuarded(cfg: Config, topicDraws: seq<nat>, draws: seq<Draw>,
                    post: (nat, seq<Event>) -> nat -> Outcome<Response>, order: seq<nat>)
    returns (r: Result<Summary, RetryError>)
    requires ValidRun(cfg, topicDraws, draws, order)
    ensures var results := RunResults(cfg, topicDraws, draws, post);
            && (r.Success? <==> forall k :: 0 <= k < |results| ==> results[k].Success?)
            && (r.Success? ==> r.value == Summary(Fold(Values(results)), DupRate(Fold(Values(results)))))
            && (r.Failure? ==> exists k :: 0 <= k < |results| && results[k] == Failure(r.error))
  {
    var drained := Dispatch(cfg, topicDraws, draws, post, order);
    match drained
    case Failure(e) =>
      r := Failure(e);
    case Success(totals) =>
      r := Success(Summary(totals, DupRate(totals)));
  }

  /**
   * A run with no events (COUNT <= 0) sends no batch, so every batch
   * vacuously succeeded and nothing was received: as written it raises at the
   * summary, and with the guard it reports a rate of 0.
   */
  lemma EmptyRunReachesZeroDivision(cfg: Config, topicDraws: seq<nat>, draws: seq<Draw>,
                                    post: (nat, seq<Event>) -> nat -> Outcome<Response>)
    requires cfg.dupRate.den > 0
    requires |topicDraws| >= BaseUnique(cfg.count, cfg.dupRate)
    requires forall k :: 0 <= k < BaseUnique(cfg.count, cfg.dupRate) ==> topicDraws[k] < |cfg.topics|
    requires ValidDraws(BaseUnique(cfg.count, cfg.dupRate), draws)
    requires cfg.count <= 0 && |draws| == RangeLength(cfg.count)
    ensures RunResults(cfg, topicDraws, draws, post) == []
    ensures DupRateAsWritten(Fold(Values(RunResults(cfg, topicDraws, draws, post)))) == Failure(ZeroDivision)
    ensures DupRate(Fold(Values(RunResults(cfg, topicDraws, draws, post)))) == Rate(0, 1)
  {
    assert EventStream(RunPairs(cfg, topicDraws), draws) == [];
    EmptyRunRaisesAtSummary();
  }

  /**
   * Ten events at a duplicate rate of 0.3 in batches of five on the single
   * topic "t": seven unique pairs ("t", "e-0") .. ("t", "e-6"), two batches.
   */
  lemma ScenarioTenEvents(topicDraws: seq<nat>)
    requires |topicDraws| >= 7 && forall k :: 0 <= k < 7 ==> topicDraws[k] == 0
    ensures BaseUnique(10, Ratio(3, 10)) == 7
    ensures forall k :: 0 <= k < 7 ==> BasePairs(["t"], topicDraws, 7)[k] == Pair("t", EventId(k))
    ensures BatchCount(10, EffectiveSize(5)) == 2
  {
  }

  /** With DUP_RATE = 1 and COUNT = 1 the pool is one pair and the single event carries it. */
  lemma ScenarioAllDuplicates(topics: seq<string>, topicDraws: seq<nat>, draws: seq<Draw>)
    requires |topicDraws| >= 1 && topicDraws[0] < |topics|
    requires |draws| == 1 && ValidDraws(1, draws)
    ensures BaseUnique(1, Ratio(1, 1)) == 1
    ensures var pairs := BasePairs(topics, topicDraws, 1);
            Key(EventStream(pairs, draws)[0]) == pairs[0] == Pair(topics[topicDraws[0]], EventId(0))
  {
  }
}
