/**
 * The Pair Synthesizer of `main`: how many unique (topic, event_id) pairs a
 * run uses, the pool of those pairs, and the rule that picks the pair for
 * event index i. The topic draws and the duplicate draws of `random.choice`
 * are passed in as indices.
 */
module Pairs {
  import opened Decimal
  import opened Events

  /** The duplicate rate DUP_RATE as the exact fraction num / den. */
  datatype Ratio = Ratio(num: int, den: int)

  /** `int(x)` on x = p / den: truncation toward zero. */
  function TruncDiv(p: int, den: int): int
    requires den > 0
  {
    if p >= 0 then p / den else -((-p) / den)
  }

  /**
   * base_unique = max(1, int(COUNT * (1 - DUP_RATE))): never below one, and
   * whenever COUNT * (1 - DUP_RATE) is at least one it is exactly its floor.
   */
  function BaseUnique(count: int, rate: Ratio): (n: nat)
    requires rate.den > 0
    ensures 1 <= n
    ensures count * (rate.den - rate.num) < rate.den ==> n == 1
    ensures count * (rate.den - rate.num) >= rate.den ==>
              n * rate.den <= count * (rate.den - rate.num) < (n + 1) * rate.den
  {
    var q := TruncDiv(count * (rate.den - rate.num), rate.den);
    if q < 1 then 1 else q
  }

  /** Scaling by a positive factor preserves order. */
  lemma ScaledOrder(a: int, b: int, d: int)
    requires d > 0 && a * d <= b * d
    ensures a <= b
  {
  }

  /** With DUP_RATE = 1 a single pair remains to be duplicated. */
  lemma AllDuplicatesLeavesOnePair(count: int, den: int)
    requires den > 0
    ensures BaseUnique(count, Ratio(den, den)) == 1
  {
  }

  /** With DUP_RATE = 0 every event of a non-empty run gets its own pair. */
  lemma NoDuplicatesGivesCount(count: int, den: int)
    requires den > 0 && count >= 1
    ensures BaseUnique(count, Ratio(0, den)) == count
  {
    var n := BaseUnique(count, Ratio(0, den));
    assert count * (den - 0) == count * den;
    ScaledOrder(n, count, den);
    ScaledOrder(count, n + 1, den);
  }

  /** For a rate in [0, 1] and a non-empty run the pool is no larger than the run. */
  lemma BaseUniqueAtMostCount(count: int, rate: Ratio)
    requires rate.den > 0 && 0 <= rate.num <= rate.den && count >= 1
    ensures BaseUnique(count, rate) <= count
  {
    var n := BaseUnique(count, rate);
    var p := count * (rate.den - rate.num);
    assert p <= count * rate.den by {
      assert count * rate.den - p == count * rate.num;
    }
    if p >= rate.den {
      ScaledOrder(n, count, rate.den);
    }
  }

  /** The event id of index i, `f"e-{i}"`. */
  function EventId(i: nat): (s: string)
    ensures |s| >= 3 && s[..2] == "e-" && s[2..] == Digits(i)
  {
    "e-" + Digits(i)
  }

  /** Index-derived event ids never collide. */
  lemma EventIdInjective(i: nat, j: nat)
    requires EventId(i) == EventId(j)
    ensures i == j
  {
    DigitsInjective(i, j);
  }

  /** The pool base_pairs: pair k has the k-th topic draw and event id "e-k". */
  function BasePairs(topics: seq<string>, topicDraws: seq<nat>, n: nat): (ps: seq<Pair>)
    requires |topicDraws| >= n
    requires forall k :: 0 <= k < n ==> topicDraws[k] < |topics|
    ensures |ps| == n
    ensures forall k :: 0 <= k < n ==> ps[k].topic in topics && ps[k].eventId == EventId(k)
  {
    seq(n, k requires 0 <= k < n => Pair(topics[topicDraws[k]], EventId(k)))
  }

  predicate Distinct<T(==)>(s: seq<T>) {
    forall i, j :: 0 <= i < j < |s| ==> s[i] != s[j]
  }

  /** The pairs of the pool are pairwise distinct whatever topics were drawn. */
  lemma BasePairsDistinct(topics: seq<string>, topicDraws: seq<nat>, n: nat)
    requires |topicDraws| >= n
    requires forall k :: 0 <= k < n ==> topicDraws[k] < |topics|
    ensures Distinct(BasePairs(topics, topicDraws, n))
  {
    var ps := BasePairs(topics, topicDraws, n);
    forall i, j | 0 <= i < j < |ps|
      ensures ps[i] != ps[j]
    {
      if ps[i] == ps[j] {
        EventIdInjective(i, j);
      }
    }
  }

  /** The loop of `main` that appends one pair per index to base_pairs. */
  method BuildBasePairs(baseUnique: nat, topics: seq<string>, topicDraws: seq<nat>) returns (pairs: seq<Pair>)
    requires |topicDraws| >= baseUnique
    requires forall k :: 0 <= k < baseUnique ==> topicDraws[k] < |topics|
    ensures pairs == BasePairs(topics, topicDraws, baseUnique)
    ensures |pairs| == baseUnique && Distinct(pairs)
  {
    pairs := [];
    for i := 0 to baseUnique
      invariant |pairs| == i
      invariant forall k :: 0 <= k < i ==> pairs[k] == Pair(topics[topicDraws[k]], EventId(k))
    {
      var topic := topics[topicDraws[i]];
      var eventId := EventId(i);
      pairs := pairs + [Pair(topic, eventId)];
    }
    BasePairsDistinct(topics, topicDraws, baseUnique);
  }

  /**
   * pick_topic_and_event_id: an index below the pool size gets its own pair;
   * any later index gets the pool member chosen by the duplicate draw `dup`.
   */
  function PickTopicAndEventId(pairs: seq<Pair>, i: nat, dup: nat): (p: Pair)
    requires |pairs| > 0
    requires i >= |pairs| ==> dup < |pairs|
    ensures p in pairs
    ensures i < |pairs| ==> p == pairs[i]
  {
    if i < |pairs| then pairs[i] else pairs[dup]
  }

  /** The pick for an index of the unique prefix does not depend on any draw. */
  lemma UniquePrefixIsFixed(pairs: seq<Pair>, i: nat, dup1: nat, dup2: nat)
    requires i < |pairs|
    ensures PickTopicAndEventId(pairs, i, dup1) == PickTopicAndEventId(pairs, i, dup2) == pairs[i]
  {
  }
}
