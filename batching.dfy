/**
 * The Batcher: the events of a run, in index order, cut into consecutive
 * batches of the configured size, with a final partial batch when one remains.
 */
module Batching {

  /**
   * The batch size the flush test `len(batch) >= BATCH_SIZE` realises: a
   * configured size below one flushes after every single event.
   */
  function EffectiveSize(batchSize: int): (n: nat)
    ensures 1 <= n
    ensures batchSize >= 1 ==> n == batchSize
  {
    if batchSize < 1 then 1 else batchSize
  }

  /** ceil(total / n), the number of batches a run of `total` events sends. */
  function BatchCount(total: nat, n: nat): nat
    requires n >= 1
  {
    (total + n - 1) / n
  }

  /** The reference cut: full batches of n from the front, then the remainder. */
  function Chunks<T>(s: seq<T>, n: nat): seq<seq<T>>
    requires n >= 1
    decreases |s|
  {
    if |s| <= n then (if s == [] then [] else [s])
    else [s[..n]] + Chunks(s[n..], n)
  }

  function Flatten<T>(bs: seq<seq<T>>): seq<T>
    decreases |bs|
  {
    if bs == [] then [] else bs[0] + Flatten(bs[1..])
  }

  /**
   * What a cut into batches must be: the batches concatenate to the events,
   * none is empty, none exceeds n, and all but the last hold exactly n.
   */
  ghost predicate IsBatching<T>(bs: seq<seq<T>>, s: seq<T>, n: nat) {
    && Flatten(bs) == s
    && (forall k :: 0 <= k < |bs| ==> 0 < |bs[k]| <= n)
    && (forall k :: 0 <= k < |bs| - 1 ==> |bs[k]| == n)
  }

  /** The reference cut is a batching of the events. */
  lemma {:induction false} ChunksIsBatching<T>(s: seq<T>, n: nat)
    requires n >= 1
    ensures IsBatching(Chunks(s, n), s, n)
    decreases |s|
  {
    if |s| > n {
      ChunksIsBatching(s[n..], n);
      var rest := Chunks(s[n..], n);
      assert Chunks(s, n)[1..] == rest;
      assert s[..n] + s[n..] == s;
    } else if s != [] {
      assert Flatten([s]) == s + Flatten<T>([]);
    }
  }

  /** A batching is unique: any cut with the batching properties is the reference cut. */
  lemma {:induction false} BatchingIsUnique<T>(bs: seq<seq<T>>, s: seq<T>, n: nat)
    requires n >= 1 && IsBatching(bs, s, n)
    ensures bs == Chunks(s, n)
    decreases |s|
  {
    if bs == [] {
      assert s == [];
    } else if |bs| == 1 {
      assert Flatten(bs) == bs[0] + Flatten(bs[1..]);
      assert s == bs[0];
    } else {
      assert Flatten(bs) == bs[0] + Flatten(bs[1..]);
      assert |bs[0]| == n;
      assert bs[1] <= Flatten(bs[1..]) by {
        assert Flatten(bs[1..]) == bs[1..][0] + Flatten(bs[1..][1..]);
      }
      assert |s| > n;
      assert s[..n] == bs[0] && s[n..] == Flatten(bs[1..]);
      BatchingIsUnique(bs[1..], s[n..], n);
    }
  }

  /** The number of batches is ceil(|s| / n). */
  lemma {:induction false} ChunksCount<T>(s: seq<T>, n: nat)
    requires n >= 1
    ensures |Chunks(s, n)| == BatchCount(|s|, n)
    decreases |s|
  {
    if |s| > n {
      ChunksCount(s[n..], n);
      assert (|s| + n - 1) / n == (|s| - n + n - 1) / n + 1 by {
        DivShift(|s| + n - 1, n);
      }
    } else if s != [] {
      DivModUnique(|s| + n - 1, n, 1, |s| - 1);
    }
  }

  // Arithmetic helpers for the batch count and the size of the last batch.

  lemma MulAtLeast(k: int, n: int)
    requires n >= 1 && k >= 1
    ensures k * n >= n
  {
    var m := k - 1;
    assert k * n == m * n + n;
    assert m * n >= 0;
  }

  /** Quotient and remainder are determined by a = q * n + r with 0 <= r < n. */
  lemma DivModUnique(a: int, n: int, q: int, r: int)
    requires n >= 1 && 0 <= r < n && a == q * n + r
    ensures a / n == q && a % n == r
  {
    var q', r' := a / n, a % n;
    assert a == q' * n + r';
    if q > q' {
      MulAtLeast(q - q', n);
    } else if q < q' {
      MulAtLeast(q' - q, n);
    }
  }

  lemma DivShift(a: int, n: int)
    requires n >= 1 && a >= n
    ensures a / n == (a - n) / n + 1 && a % n == (a - n) % n
  {
    var q, r := (a - n) / n, (a - n) % n;
    assert a - n == q * n + r;
    assert a == (q + 1) * n + r;
    DivModUnique(a, n, q + 1, r);
  }

  /** The last batch holds |s| mod n events when that is non-zero, else n. */
  lemma {:induction false} LastChunkSize<T>(s: seq<T>, n: nat)
    requires n >= 1 && s != []
    ensures Chunks(s, n) != []
    ensures |Chunks(s, n)[|Chunks(s, n)| - 1]| == if |s| % n == 0 then n else |s| % n
    decreases |s|
  {
    if |s| > n {
      LastChunkSize(s[n..], n);
      assert |s[n..]| % n == |s| % n by {
        DivShift(|s|, n);
      }
    } else if |s| < n {
      assert |s| % n == |s|;
    }
  }

  /** Cutting a multiple of n and then the rest is cutting the whole. */
  lemma {:induction false} ChunksAppend<T>(s: seq<T>, t: seq<T>, n: nat)
    requires n >= 1 && |s| % n == 0
    ensures Chunks(s + t, n) == Chunks(s, n) + Chunks(t, n)
    decreases |s|
  {
    if s != [] {
      assert |s| >= n;
      assert (s + t)[..n] == s[..n];
      assert (s + t)[n..] == s[n..] + t;
      assert |s[n..]| % n == 0 by {
        DivShift(|s|, n);
      }
      ChunksAppend(s[n..], t, n);
      if |s| == n {
        assert s[n..] == [];
        if t == [] {
          assert s + t == s;
        }
      }
    } else {
      assert s + t == t;
    }
  }

  /** Flushing a full batch: the cut of the prefix grows by exactly that batch. */
  lemma ChunksFlushFull<T>(s: seq<T>, start: nat, n: nat)
    requires n >= 1 && start % n == 0 && start + n <= |s|
    ensures Chunks(s[..start + n], n) == Chunks(s[..start], n) + [s[start..start + n]]
    ensures (start + n) % n == 0
  {
    assert s[..start + n] == s[..start] + s[start..start + n];
    ChunksAppend(s[..start], s[start..start + n], n);
    DivShift(start + n, n);
  }

  /** The final flush: the leftover events, if any, form the last batch. */
  lemma ChunksFlushRest<T>(s: seq<T>, start: nat, n: nat)
    requires n >= 1 && start % n == 0 && start <= |s| && |s| - start < n
    ensures Chunks(s, n) == Chunks(s[..start], n) + (if start == |s| then [] else [s[start..]])
  {
    assert s == s[..start] + s[start..];
    ChunksAppend(s[..start], s[start..], n);
  }
}
