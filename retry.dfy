/**
 * The per-batch retry policy of the guaranteed mode: the same batch is
 * queried again and again until a query succeeds. `responses[j]` is the
 * reply the (j+1)-th query of the batch receives.
 */
module Retry {
  import opened HunterTypes
  import opened Rotation
  import opened Correlation

  /** Some reply in the sequence makes the batch's query succeed, so the
      retry loop ends. */
  ghost predicate EventuallySucceeds(batch: seq<Wallet>, responses: seq<Response>)
  {
    exists j :: 0 <= j < |responses| && Outcome(batch, responses[j]).success
  }

  function FirstSuccessFrom(batch: seq<Wallet>, responses: seq<Response>, from: nat): (k: nat)
    requires from <= |responses|
    requires exists j :: from <= j < |responses| && Outcome(batch, responses[j]).success
    ensures from <= k < |responses| && Outcome(batch, responses[k]).success
    ensures forall j :: from <= j < k ==> !Outcome(batch, responses[j]).success
    decreases |responses| - from
  {
    if Outcome(batch, responses[from]).success then from
    else FirstSuccessFrom(batch, responses, from + 1)
  }

  /** The number of failed queries before the first successful one: the
      retries the guaranteed worker performs for this batch. */
  function FirstSuccess(batch: seq<Wallet>, responses: seq<Response>): (k: nat)
    requires EventuallySucceeds(batch, responses)
    ensures k < |responses| && Outcome(batch, responses[k]).success
  {
    FirstSuccessFrom(batch, responses, 0)
  }

  /** Every query before the first success fails. */
  lemma FirstSuccessIsFirst(batch: seq<Wallet>, responses: seq<Response>)
    requires EventuallySucceeds(batch, responses)
    ensures forall j :: 0 <= j < FirstSuccess(batch, responses) ==> !Outcome(batch, responses[j]).success
  {
  }

  /** Up to the first success, a query succeeds exactly when it is the first
      success. */
  lemma FirstSuccessStep(batch: seq<Wallet>, responses: seq<Response>, q: nat)
    requires EventuallySucceeds(batch, responses)
    requires q <= FirstSuccess(batch, responses)
    ensures Outcome(batch, responses[q]).success <==> q == FirstSuccess(batch, responses)
  {
    FirstSuccessIsFirst(batch, responses);
  }

  /** The records appended by the first `n` queries of the batch, in order. */
  function SavedOver(batch: seq<Wallet>, responses: seq<Response>, n: nat): (saved: seq<Finding>)
    requires n <= |responses|
  {
    if n == 0 then [] else SavedOver(batch, responses, n - 1) + Outcome(batch, responses[n - 1]).saved
  }

  /** A file holding the first `q` queries' records, after query `q + 1`
      appends its own, holds the first `q + 1` queries' records. */
  lemma SavedOverStep(batch: seq<Wallet>, responses: seq<Response>, q: nat,
                      start: seq<Finding>, before: seq<Finding>, after: seq<Finding>)
    requires q < |responses|
    requires before == start + SavedOver(batch, responses, q)
    requires after == before + Outcome(batch, responses[q]).saved
    ensures after == start + SavedOver(batch, responses, q + 1)
  {
  }

  /** One request per URL, each carrying the same address list. */
  function Requests(urls: seq<string>, addresses: seq<string>): (requests: seq<Request>)
    ensures |requests| == |urls|
    ensures forall j :: 0 <= j < |urls| ==> requests[j] == Request(urls[j], addresses)
  {
    if urls == [] then [] else [Request(urls[0], addresses)] + Requests(urls[1..], addresses)
  }

  lemma RequestsSnoc(urls: seq<string>, url: string, addresses: seq<string>)
    ensures Requests(urls + [url], addresses) == Requests(urls, addresses) + [Request(url, addresses)]
  {
  }

  /** The request log after `q` queries from index `start`, extended by the
      request the next query posts, is the log after `q + 1` queries. */
  lemma SentStep(pool: seq<string>, start: nat, q: nat, addresses: seq<string>,
                 sent0: seq<Request>, before: seq<Request>, after: seq<Request>)
    requires start < |pool|
    requires before == sent0 + Requests(Urls(pool, start, q), addresses)
    requires after == before + [Request(pool[IndexAfter(start, q, |pool|)], addresses)]
    ensures after == sent0 + Requests(Urls(pool, start, q + 1), addresses)
  {
    UrlsSnoc(pool, start, q);
    RequestsSnoc(Urls(pool, start, q), pool[IndexAfter(start, q, |pool|)], addresses);
  }

  /** Every query of a batch records at most one finding per wallet, so `n`
      queries record at most `n` times the batch size. */
  lemma {:induction false} SavedOverBound(batch: seq<Wallet>, responses: seq<Response>, n: nat)
    requires n <= |responses|
    ensures |SavedOver(batch, responses, n)| <= n * |batch|
  {
    if n > 0 {
      SavedOverBound(batch, responses, n - 1);
      QuerySavesAtMostBatch(batch, responses[n - 1]);
      assert n * |batch| == (n - 1) * |batch| + |batch|;
    }
  }

  /** The successful query is the last one, so its records end the batch's
      records, and every hit of the successful reply is recorded among them. */
  lemma FinalQueryRecordsLast(batch: seq<Wallet>, responses: seq<Response>)
    requires EventuallySucceeds(batch, responses)
    ensures var k := FirstSuccess(batch, responses);
            var all := SavedOver(batch, responses, k + 1);
            var last := Outcome(batch, responses[k]).saved;
            |last| <= |all| && all[|all| - |last|..] == last
    ensures var k := FirstSuccess(batch, responses);
            var all := SavedOver(batch, responses, k + 1);
            responses[k].Reply? && responses[k].body.Value? ==>
              forall j :: 0 <= j < |responses[k].body.accounts| && IsHit(responses[k].body.accounts[j]) ==>
                && j < |batch| && responses[k].body.accounts[j].lamports < OVERFLOW_LAMPORTS
                && FindingAt(batch, responses[k].body.accounts, j) in all
  {
    var k := FirstSuccess(batch, responses);
    var last := Outcome(batch, responses[k]).saved;
    assert SavedOver(batch, responses, k + 1) == SavedOver(batch, responses, k) + last;
    if responses[k].Reply? && responses[k].body.Value? {
      var accounts := responses[k].body.accounts;
      assert responses[k] == Reply(200, Value(accounts));
      SuccessSavesEveryHit(batch, accounts);
    }
  }

  /** When every failed query fails before reaching the account loop, only
      the successful query records anything. */
  lemma {:induction false} CleanFailuresRecordNothing(batch: seq<Wallet>, responses: seq<Response>, n: nat)
    requires n <= |responses|
    requires forall j :: 0 <= j < n ==> !(responses[j].Reply? && responses[j].status == 200 && responses[j].body.Value?)
    ensures SavedOver(batch, responses, n) == []
  {
    if n > 0 {
      CleanFailuresRecordNothing(batch, responses, n - 1);
    }
  }

  /** A reply whose second entry has a balance but no wallet: the hit at
      position 0 is saved, then the loop raises. */
  lemma SaveThenRaise(w: Wallet)
    ensures Outcome([w], Reply(200, Value([Account(5), Account(1)])))
            == QueryOutcome([Finding(w.mnemonic, w.address, 5)], false)
  {
    var accounts := [Account(5), Account(1)];
    assert Raises([w], accounts, 1) && !Raises([w], accounts, 0);
    assert FirstRaise([w], accounts) == 1;
    assert SavedPrefix([w], accounts, 1) == [Finding(w.mnemonic, w.address, 5)];
  }

  /** A clean reply with the same hit: saved and successful. */
  lemma SaveAndSucceed(w: Wallet)
    ensures Outcome([w], Reply(200, Value([Account(5)])))
            == QueryOutcome([Finding(w.mnemonic, w.address, 5)], true)
  {
    var accounts := [Account(5)];
    assert !Raises([w], accounts, 0);
    assert FirstRaise([w], accounts) == 1;
    assert SavedPrefix([w], accounts, 1) == [Finding(w.mnemonic, w.address, 5)];
  }

  /** No deduplication across retries: a reply that saves a hit and then
      raises, followed by a successful reply with the same hit, records the
      same wallet twice, so one batch of one wallet adds two findings. */
  lemma RetryRecordsTwice(w: Wallet)
    ensures var responses := [Reply(200, Value([Account(5), Account(1)])), Reply(200, Value([Account(5)]))];
            && EventuallySucceeds([w], responses)
            && FirstSuccess([w], responses) == 1
            && SavedOver([w], responses, 2) == [Finding(w.mnemonic, w.address, 5), Finding(w.mnemonic, w.address, 5)]
  {
    var responses := [Reply(200, Value([Account(5), Account(1)])), Reply(200, Value([Account(5)]))];
    SaveThenRaise(w);
    SaveAndSucceed(w);
    assert Outcome([w], responses[1]).success;
    assert SavedOver([w], responses, 1) == Outcome([w], responses[0]).saved;
  }
}
