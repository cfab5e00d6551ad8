/**
 * The Aggregator: the drain loop of `main` over the batch tasks in completion
 * order, the totals it keeps, and the duplicate rate of the summary line.
 * Completion order is a permutation of the submission order.
 */
module Aggregate {
  import opened Wrappers

  /** The decoded JSON object one batch POST answers with. */
  type Response = map<string, int>

  /** `out.get(key, 0)`: a missing key counts as zero. */
  function Get(out: Response, key: string): (v: int)
    ensures key in out ==> v == out[key]
    ensures key !in out ==> v == 0
  {
    if key in out then out[key] else 0
  }

  /** The running counters received, inserted and dup. */
  datatype Totals = Totals(received: int, inserted: int, duplicates: int)

  /** The sum of `out.get(key, 0)` over the responses, added left to right. */
  function Sum(outs: seq<Response>, key: string): int
    decreases |outs|
  {
    if outs == [] then 0 else Sum(outs[..|outs| - 1], key) + Get(outs[|outs| - 1], key)
  }

  /** received, inserted and dup after folding the responses. */
  function Fold(outs: seq<Response>): Totals {
    Totals(Sum(outs, "accepted"), Sum(outs, "inserted"), Sum(outs, "duplicates"))
  }

  lemma {:induction false} SumAppend(s: seq<Response>, t: seq<Response>, key: string)
    ensures Sum(s + t, key) == Sum(s, key) + Sum(t, key)
    decreases |t|
  {
    if t == [] {
      assert s + t == s;
    } else {
      var t' := t[..|t| - 1];
      assert (s + t)[..|s + t| - 1] == s + t';
      SumAppend(s, t', key);
    }
  }

  /** Removing the element at j removes one occurrence of it. */
  lemma MultisetRemove<T>(s: seq<T>, j: nat)
    requires j < |s|
    ensures multiset(s[..j] + s[j + 1..]) == multiset(s) - multiset{s[j]}
  {
    assert s == s[..j] + [s[j]] + s[j + 1..];
    assert multiset(s) == multiset(s[..j]) + multiset{s[j]} + multiset(s[j + 1..]);
  }

  /** Removing the response at j takes its count out of the sum. */
  lemma SumRemove(s: seq<Response>, j: nat, key: string)
    requires j < |s|
    ensures Sum(s, key) == Sum(s[..j] + s[j + 1..], key) + Get(s[j], key)
  {
    var x := s[j];
    SumAppend(s[..j], [x] + s[j + 1..], key);
    SumAppend([x], s[j + 1..], key);
    SumAppend(s[..j], s[j + 1..], key);
    assert Sum([x], key) == Get(x, key) by {
      assert [x][..0] == [];
    }
    assert s[..j] + ([x] + s[j + 1..]) == s;
  }

  /** The sum does not depend on the order of the responses. */
  lemma {:induction false} SumPermutation(a: seq<Response>, b: seq<Response>, key: string)
    requires multiset(a) == multiset(b)
    ensures Sum(a, key) == Sum(b, key)
    decreases |a|
  {
    if a == [] {
      assert |b| == |multiset(b)| == 0;
    } else {
      var i := |a| - 1;
      var x := a[i];
      assert x in multiset(b);
      var j :| 0 <= j < |b| && b[j] == x;
      MultisetRemove(a, i);
      MultisetRemove(b, j);
      assert a[..i] + a[i + 1..] == a[..i];
      SumPermutation(a[..i], b[..j] + b[j + 1..], key);
      SumRemove(b, j, key);
    }
  }

  /** The totals are the same for every completion order. */
  lemma FoldPermutation(a: seq<Response>, b: seq<Response>)
    requires multiset(a) == multiset(b)
    ensures Fold(a) == Fold(b)
  {
    SumPermutation(a, b, "accepted");
    SumPermutation(a, b, "inserted");
    SumPermutation(a, b, "duplicates");
  }

  /** The service's own per-batch accounting: accepted == inserted + duplicates. */
  predicate Balanced(out: Response) {
    Get(out, "accepted") == Get(out, "inserted") + Get(out, "duplicates")
  }

  predicate NonNegative(out: Response) {
    Get(out, "accepted") >= 0 && Get(out, "inserted") >= 0 && Get(out, "duplicates") >= 0
  }

  /** Balanced batch answers give balanced totals: received == inserted + dup. */
  lemma {:induction false} FoldBalanced(outs: seq<Response>)
    requires forall k :: 0 <= k < |outs| ==> Balanced(outs[k])
    ensures Fold(outs).received == Fold(outs).inserted + Fold(outs).duplicates
    decreases |outs|
  {
    if outs != [] {
      FoldBalanced(outs[..|outs| - 1]);
    }
  }

  /** Non-negative batch answers give non-negative totals. */
  lemma {:induction false} FoldNonNegative(outs: seq<Response>)
    requires forall k :: 0 <= k < |outs| ==> NonNegative(outs[k])
    ensures Fold(outs).received >= 0 && Fold(outs).inserted >= 0 && Fold(outs).duplicates >= 0
    decreases |outs|
  {
    if outs != [] {
      FoldNonNegative(outs[..|outs| - 1]);
    }
  }

  /** The responses of completions that all succeeded, in the same order. */
  function Values<E>(completed: seq<Result<Response, E>>): (outs: seq<Response>)
    requires forall k :: 0 <= k < |completed| ==> completed[k].Success?
    ensures |outs| == |completed|
    ensures forall k :: 0 <= k < |outs| ==> completed[k] == Success(outs[k])
  {
    seq(|completed|, k requires 0 <= k < |completed| => completed[k].value)
  }

  /**
   * The drain loop: add each completed batch's counts in completion order.
   * A batch whose call raised aborts the loop at its `await` with that error;
   * the totals gathered so far are lost.
   */
  method Drain<E>(completed: seq<Result<Response, E>>) returns (r: Result<Totals, E>)
    ensures r.Success? <==> forall k :: 0 <= k < |completed| ==> completed[k].Success?
    ensures r.Success? ==> r.value == Fold(Values(completed))
    ensures r.Failure? ==> exists k :: 0 <= k < |completed| && completed[k] == Failure(r.error)
                              && forall j :: 0 <= j < k ==> completed[j].Success?
  {
    var inserted, received, dup := 0, 0, 0;
    for i := 0 to |completed|
      invariant forall j :: 0 <= j < i ==> completed[j].Success?
      invariant Totals(received, inserted, dup) == Fold(Values(completed[..i]))
    {
      match completed[i]
      case Failure(e) =>
        r := Failure(e);
        return;
      case Success(out) =>
        assert Values(completed[..i + 1])[..i] == Values(completed[..i]);
        received := received + Get(out, "accepted");
        inserted := inserted + Get(out, "inserted");
        dup := dup + Get(out, "duplicates");
    }
    assert completed[..|completed|] == completed;
    r := Success(Totals(received, inserted, dup));
  }

  /** The indices 0 .. n-1 in order. */
  function Indices(n: nat): (s: seq<nat>)
    ensures |s| == n && forall k :: 0 <= k < n ==> s[k] == k
  {
    seq(n, k requires 0 <= k < n => k)
  }

  /** `order` lists every index below n exactly once. */
  predicate IsPermutation(order: seq<nat>, n: nat) {
    multiset(order) == multiset(Indices(n))
  }

  /** Every index a permutation of 0 .. n-1 lists is below n. */
  lemma PermutationInRange(order: seq<nat>, n: nat)
    requires IsPermutation(order, n)
    ensures forall k :: 0 <= k < |order| ==> order[k] < n
  {
    forall k | 0 <= k < |order|
      ensures order[k] < n
    {
      assert order[k] in multiset(order);
      assert order[k] in Indices(n);
    }
  }

  /** The elements of s in the order `order` gives. */
  function Reorder<T>(s: seq<T>, order: seq<nat>): (r: seq<T>)
    requires forall k :: 0 <= k < |order| ==> order[k] < |s|
    ensures |r| == |order| && forall k :: 0 <= k < |order| ==> r[k] == s[order[k]]
  {
    seq(|order|, k requires 0 <= k < |order| => s[order[k]])
  }

  /** Each index below n occurs exactly once in Indices(n). */
  lemma {:induction false} IndicesOnce(n: nat, x: nat)
    ensures multiset(Indices(n))[x] == if x < n then 1 else 0
  {
    if n > 0 {
      IndicesOnce(n - 1, x);
      assert Indices(n) == Indices(n - 1) + [n - 1];
    }
  }

  /** Two positions of a sequence holding the same value give it two occurrences. */
  lemma DistinctPositions<T>(s: seq<T>, j: nat, k: nat)
    requires j < |s| && k < |s| && j != k
    requires multiset(s)[s[j]] <= 1
    ensures s[j] != s[k]
  {
    var lo, hi := if j < k then j else k, if j < k then k else j;
    assert s == s[..lo] + [s[lo]] + (s[lo + 1..hi] + [s[hi]] + s[hi + 1..]);
    assert s[lo + 1..] == s[lo + 1..hi] + [s[hi]] + s[hi + 1..];
    assert multiset(s)[s[j]] >= multiset{s[lo]}[s[j]] + multiset{s[hi]}[s[j]];
  }

  /**
   * A permutation of 0 .. n with the position j of n taken out is a
   * permutation of 0 .. n-1.
   */
  lemma PermutationRemoveLast(order: seq<nat>, n: nat, j: nat, order': seq<nat>)
    requires IsPermutation(order, n + 1) && j < |order| && order[j] == n
    requires order' == order[..j] + order[j + 1..]
    ensures IsPermutation(order', n)
    ensures forall k :: 0 <= k < |order| && k != j ==> order[k] < n
  {
    PermutationInRange(order, n + 1);
    MultisetRemove(order, j);
    assert Indices(n + 1) == Indices(n) + [n];
    assert multiset(Indices(n)) == multiset(Indices(n + 1)) - multiset{n};
    IndicesOnce(n + 1, n);
    forall k | 0 <= k < |order| && k != j
      ensures order[k] < n
    {
      DistinctPositions(order, j, k);
    }
  }

  /**
   * Taking out of `order` the position j of the last index of s: what remains
   * reorders s without its last element.
   */
  lemma ReorderRemoveLast<T>(s: seq<T>, order: seq<nat>, j: nat, order': seq<nat>)
    requires s != [] && j < |order| && order[j] == |s| - 1
    requires forall k :: 0 <= k < |order| && k != j ==> order[k] < |s| - 1
    requires order' == order[..j] + order[j + 1..]
    ensures forall k :: 0 <= k < |order'| ==> order'[k] < |s| - 1
    ensures multiset(Reorder(s, order)) == multiset(Reorder(s[..|s| - 1], order')) + multiset{s[|s| - 1]}
  {
    var r := Reorder(s, order);
    var r' := Reorder(s[..|s| - 1], order');
    assert r == r'[..j] + [s[|s| - 1]] + r'[j..];
    assert r'[..j] + r'[j..] == r';
    assert multiset(r) == multiset(r'[..j]) + multiset{s[|s| - 1]} + multiset(r'[j..]);
  }

  /** Taking the elements in the order of a permutation keeps every element and its count. */
  lemma {:induction false} ReorderPermutes<T>(s: seq<T>, order: seq<nat>)
    requires IsPermutation(order, |s|)
    ensures forall k :: 0 <= k < |order| ==> order[k] < |s|
    ensures multiset(Reorder(s, order)) == multiset(s)
    decreases |s|
  {
    PermutationInRange(order, |s|);
    if s == [] {
      assert |order| == |multiset(order)| == 0;
    } else {
      var last: nat := |s| - 1;
      assert Indices(|s|) == Indices(last) + [last];
      assert last in multiset(order);
      var j :| 0 <= j < |order| && order[j] == last;
      var order' := order[..j] + order[j + 1..];
      PermutationRemoveLast(order, last, j, order');
      ReorderRemoveLast(s, order, j, order');
      ReorderPermutes(s[..last], order');
      assert s == s[..last] + [s[last]];
    }
  }

  /**
   * Draining the batch results in the order of any permutation: the
   * completion sequence holds the same results, so every failure met there
   * is a batch's failure; all complete successfully exactly when all batches
   * succeeded; and the totals are those of submission order.
   */
  lemma CompletionOrderIrrelevant<E>(results: seq<Result<Response, E>>, order: seq<nat>)
    requires IsPermutation(order, |results|)
    ensures forall k :: 0 <= k < |order| ==> order[k] < |results|
    ensures multiset(Reorder(results, order)) == multiset(results)
    ensures forall k :: 0 <= k < |order| ==> Reorder(results, order)[k] in results
    ensures (forall k :: 0 <= k < |order| ==> Reorder(results, order)[k].Success?)
        <==> (forall k :: 0 <= k < |results| ==> results[k].Success?)
    ensures (forall k :: 0 <= k < |results| ==> results[k].Success?) ==>
              Fold(Values(Reorder(results, order))) == Fold(Values(results))
  {
    ReorderPermutes(results, order);
    var completed := Reorder(results, order);
    if forall k :: 0 <= k < |completed| ==> completed[k].Success? {
      forall k | 0 <= k < |results|
        ensures results[k].Success?
      {
        assert results[k] in multiset(completed);
      }
    }
    if forall k :: 0 <= k < |results| ==> results[k].Success? {
      ReorderPermutes(Values(results), order);
      assert Values(completed) == Reorder(Values(results), order);
      FoldPermutation(Values(completed), Values(results));
    }
  }

  /** The duplicate rate dup / received as a fraction. */
  datatype Rate = Rate(num: int, den: int)

  /** The exception the summary line can raise. */
  datatype SummaryError = ZeroDivision

  /** `dup/received` as the summary line computes it: no guard on zero. */
  function DupRateAsWritten(t: Totals): (r: Result<Rate, SummaryError>)
    ensures r.Failure? <==> t.received == 0
    ensures r.Success? ==> r.value.den != 0 && r.value.num * t.received == t.duplicates * r.value.den
  {
    if t.received == 0 then Failure(ZeroDivision) else Success(Rate(t.duplicates, t.received))
  }

  /** A run that sends no events reaches the summary with received == 0 and raises. */
  lemma EmptyRunRaisesAtSummary()
    ensures Fold([]) == Totals(0, 0, 0)
    ensures DupRateAsWritten(Fold([])) == Failure(ZeroDivision)
  {
  }

  /** The duplicate rate with the zero guard: 0 when nothing was received. */
  function DupRate(t: Totals): (r: Rate)
    ensures r.den != 0
    ensures t.received == 0 ==> r.num == 0
    ensures t.received != 0 ==> r.num * t.received == t.duplicates * r.den
  {
    if t.received == 0 then Rate(0, 1) else Rate(t.duplicates, t.received)
  }

  /** Wherever the unguarded division succeeds the guarded rate is the same fraction. */
  lemma DupRateAgrees(t: Totals)
    requires t.received != 0
    ensures DupRateAsWritten(t) == Success(DupRate(t))
  {
  }

  /** Balanced, non-negative totals give a rate between 0 and 1. */
  lemma DupRateInUnitInterval(t: Totals)
    requires t.received == t.inserted + t.duplicates
    requires t.inserted >= 0 && t.duplicates >= 0
    ensures 0 <= DupRate(t).num <= DupRate(t).den
  {
  }
}
