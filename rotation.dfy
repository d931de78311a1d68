/**
 * Endpoint rotation (`get_rpc_url`): every call returns the endpoint at the
 * current index and advances the index by one, modulo the pool size.
 */
module Rotation {

  /** The index after one call, in a pool of `n` endpoints. */
  function NextIndex(i: nat, n: nat): (j: nat)
    requires i < n
    ensures j < n
    ensures i + 1 < n ==> j == i + 1
    ensures i + 1 == n ==> j == 0
  {
    (i + 1) % n
  }

  /** The URLs returned by `k` successive calls when the index starts at `i`. */
  function Urls(pool: seq<string>, i: nat, k: nat): (urls: seq<string>)
    requires i < |pool|
    ensures |urls| == k
    decreases k
  {
    if k == 0 then [] else [pool[i]] + Urls(pool, NextIndex(i, |pool|), k - 1)
  }

  /** The index after `k` calls when it starts at `i`. */
  function IndexAfter(i: nat, k: nat, n: nat): (j: nat)
    requires i < n
    ensures j < n
    decreases k
  {
    if k == 0 then i else NextIndex(IndexAfter(i, k - 1, n), n)
  }

  /** Advancing once and then `k` times is advancing `k + 1` times. */
  lemma {:induction false} IndexAfterShift(i: nat, k: nat, n: nat)
    requires i < n
    ensures IndexAfter(NextIndex(i, n), k, n) == IndexAfter(i, k + 1, n)
    decreases k
  {
    if k > 0 {
      IndexAfterShift(i, k - 1, n);
    }
  }

  /** The `j`-th of `k` successive calls returns the endpoint reached after
      `j` earlier calls. */
  lemma {:induction false} UrlsAt(pool: seq<string>, i: nat, k: nat, j: nat)
    requires i < |pool| && j < k
    ensures Urls(pool, i, k)[j] == pool[IndexAfter(i, j, |pool|)]
    decreases j
  {
    if j > 0 {
      UrlsAt(pool, NextIndex(i, |pool|), k - 1, j - 1);
      IndexAfterShift(i, j - 1, |pool|);
    }
  }

  /** With two endpoints the index after `k` calls from 0 is the parity of `k`. */
  lemma {:induction false} TwoIndexParity(k: nat)
    ensures IndexAfter(0, k, 2) == k % 2
    decreases k
  {
    if k > 0 {
      TwoIndexParity(k - 1);
    }
  }

  /** One more call appends the endpoint at the index reached so far. */
  lemma {:induction false} UrlsSnoc(pool: seq<string>, i: nat, k: nat)
    requires i < |pool|
    ensures Urls(pool, i, k + 1) == Urls(pool, i, k) + [pool[IndexAfter(i, k, |pool|)]]
  {
    var a, b := Urls(pool, i, k + 1), Urls(pool, i, k) + [pool[IndexAfter(i, k, |pool|)]];
    forall j | 0 <= j < k + 1
      ensures a[j] == b[j]
    {
      UrlsAt(pool, i, k + 1, j);
      if j < k {
        UrlsAt(pool, i, k, j);
      }
    }
  }

  /** With a single configured endpoint the index never leaves 0. */
  lemma {:induction false} SingleEndpointIndexStaysZero(k: nat)
    ensures IndexAfter(0, k, 1) == 0
    decreases k
  {
    if k > 0 {
      SingleEndpointIndexStaysZero(k - 1);
    }
  }

  /** With a single configured endpoint every call returns that endpoint. */
  lemma SingleEndpointIsConstant(pool: seq<string>, k: nat)
    requires |pool| == 1
    ensures forall j :: 0 <= j < k ==> Urls(pool, 0, k)[j] == pool[0]
  {
    forall j | 0 <= j < k
      ensures Urls(pool, 0, k)[j] == pool[0]
    {
      UrlsAt(pool, 0, k, j);
    }
  }

  /** With two endpoints, successive calls from index 0 alternate 0, 1, 0, 1, ... */
  lemma TwoEndpointsAlternate(pool: seq<string>, k: nat)
    requires |pool| == 2
    ensures forall j :: 0 <= j < k ==> Urls(pool, 0, k)[j] == pool[j % 2]
  {
    forall j | 0 <= j < k
      ensures Urls(pool, 0, k)[j] == pool[j % 2]
    {
      UrlsAt(pool, 0, k, j);
      TwoIndexParity(j);
    }
  }
}
