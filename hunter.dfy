/**
 * The hunter object shared by all workers: endpoint rotation, the findings
 * file, the statistics counters, and one iteration of the worker loop in
 * each mode. Each `with self.lock` block is one step here, and one worker
 * is run sequentially.
 */
module Hunter {
  import opened HunterTypes
  import opened Rotation
  import opened Batch
  import opened Correlation
  import opened Retry

  class SolanaHunter {
    const mode: Mode
    const rpcEndpoints: seq<string>
    var currentRpcIndex: nat

    var attempts: nat
    var foundWallets: nat
    /** Failed queries retried (guaranteed mode). */
    var retries: nat
    /** Failed query batches (pro mode). */
    var rpcErrors: nat

    /** The records in the findings file, oldest first. */
    var outputFile: seq<Finding>
    /** The file's contents when the run started; it is opened for appending only. */
    ghost const initialFile: seq<Finding>
    /** Every request posted so far, oldest first. */
    ghost var sent: seq<Request>

    ghost predicate Valid()
      reads this
    {
      && currentRpcIndex < |rpcEndpoints|
      && initialFile <= outputFile
      && foundWallets == |outputFile| - |initialFile|
      && (mode == Guaranteed ==> rpcErrors == 0)
      && (mode == Pro ==> retries == 0)
    }

    /** `__init__`: the mode's endpoint pool, index 0, all counters 0; the
        findings file keeps whatever it already holds. */
    constructor (mode: Mode, existing: seq<Finding>)
      ensures Valid()
      ensures this.mode == mode && rpcEndpoints == Endpoints(mode) && currentRpcIndex == 0
      ensures attempts == 0 && foundWallets == 0 && retries == 0 && rpcErrors == 0
      ensures outputFile == existing && initialFile == existing && sent == []
    {
      this.mode := mode;
      rpcEndpoints := Endpoints(mode);
      currentRpcIndex := 0;
      attempts, foundWallets, retries, rpcErrors := 0, 0, 0, 0;
      outputFile := existing;
      initialFile := existing;
      sent := [];
    }

    /** `get_rpc_url`: the endpoint at the current index; the index moves on
        by one, wrapping around the pool. */
    method GetRpcUrl() returns (url: string)
      requires Valid()
      modifies this`currentRpcIndex
      ensures Valid()
      ensures url == rpcEndpoints[old(currentRpcIndex)]
      ensures currentRpcIndex == NextIndex(old(currentRpcIndex), |rpcEndpoints|)
    {
      url := rpcEndpoints[currentRpcIndex];
      currentRpcIndex := (currentRpcIndex + 1) % |rpcEndpoints|;
    }

    /** `save_wallet`: appends one record and counts it, together. Nothing is
        removed and nothing is deduplicated. */
    method SaveWallet(mnemonic: string, address: string, lamports: int)
      requires Valid()
      modifies this`outputFile, this`foundWallets
      ensures Valid()
      ensures outputFile == old(outputFile) + [Finding(mnemonic, address, lamports)]
      ensures foundWallets == old(foundWallets) + 1
    {
      outputFile := outputFile + [Finding(mnemonic, address, lamports)];
      foundWallets := foundWallets + 1;
    }

    /** `check_balance_batch`: posts the batch's addresses to the next
        endpoint, then walks `result.value` saving each hit; returns whether
        the query went through without an exception. */
    method CheckBalanceBatch(wallets: seq<Wallet>, response: Response) returns (success: bool)
      requires Valid()
      modifies this`currentRpcIndex, this`outputFile, this`foundWallets, this`sent
      ensures Valid()
      ensures success == Outcome(wallets, response).success
      ensures outputFile == old(outputFile) + Outcome(wallets, response).saved
      ensures foundWallets == old(foundWallets) + |Outcome(wallets, response).saved|
      ensures currentRpcIndex == NextIndex(old(currentRpcIndex), |rpcEndpoints|)
      ensures sent == old(sent) + [Request(rpcEndpoints[old(currentRpcIndex)], Addresses(wallets))]
    {
      var addresses := Addresses(wallets);
      var rpcUrl := GetRpcUrl();
      sent := sent + [Request(rpcUrl, addresses)];
      match response
      case TransportError =>
        success := false;
      case Reply(status, body) =>
        if status != 200 {
          success := false;
        } else {
          match body
          case Unparsable =>
            success := false;
          case NoValue =>
            success := true;
          case Value(accounts) =>
            success := ScanAccounts(wallets, accounts);
        }
    }

    /** The account loop of `check_balance_batch`, stopping at the first
        entry that raises. */
    method ScanAccounts(wallets: seq<Wallet>, accounts: seq<AccountEntry>) returns (success: bool)
      requires Valid()
      modifies this`outputFile, this`foundWallets
      ensures Valid()
      ensures success == (FirstRaise(wallets, accounts) == |accounts|)
      ensures outputFile == old(outputFile) + SavedPrefix(wallets, accounts, FirstRaise(wallets, accounts))
    {
      var i := 0;
      while i < |accounts|
        invariant Valid()
        invariant i <= FirstRaise(wallets, accounts)
        invariant outputFile == old(outputFile) + SavedPrefix(wallets, accounts, i)
      {
        match accounts[i] {
          case Null =>
          case Unreadable =>
            assert Raises(wallets, accounts, i);
            return false;
          case Account(lamports) =>
            if lamports > 0 {
              if lamports >= OVERFLOW_LAMPORTS {
                assert Raises(wallets, accounts, i);
                return false;
              }
              if i >= |wallets| {
                assert Raises(wallets, accounts, i);
                return false;
              }
              SaveWallet(wallets[i].mnemonic, wallets[i].address, lamports);
            }
        }
        i := i + 1;
      }
      assert FirstRaise(wallets, accounts) == |accounts|;
      return true;
    }

    /** Query number `q + 1` of a batch in the retry loop: `check_balance_batch`
        with its effects stated over all the batch's queries so far. */
    method QueryInRetryLoop(batch: seq<Wallet>, responses: seq<Response>, q: nat,
                            ghost start: nat, ghost file0: seq<Finding>, ghost sent0: seq<Request>)
      returns (success: bool)
      requires Valid() && start < |rpcEndpoints|
      requires EventuallySucceeds(batch, responses) && q <= FirstSuccess(batch, responses)
      requires outputFile == file0 + SavedOver(batch, responses, q)
      requires currentRpcIndex == IndexAfter(start, q, |rpcEndpoints|)
      requires sent == sent0 + Requests(Urls(rpcEndpoints, start, q), Addresses(batch))
      modifies this`currentRpcIndex, this`outputFile, this`foundWallets, this`sent
      ensures Valid()
      ensures success == Outcome(batch, responses[q]).success
      ensures success <==> q == FirstSuccess(batch, responses)
      ensures outputFile == file0 + SavedOver(batch, responses, q + 1)
      ensures currentRpcIndex == IndexAfter(start, q + 1, |rpcEndpoints|)
      ensures sent == sent0 + Requests(Urls(rpcEndpoints, start, q + 1), Addresses(batch))
    {
      ghost var fileBefore, sentBefore := outputFile, sent;
      success := CheckBalanceBatch(batch, responses[q]);
      SavedOverStep(batch, responses, q, file0, fileBefore, outputFile);
      SentStep(rpcEndpoints, start, q, Addresses(batch), sent0, sentBefore, sent);
      FirstSuccessStep(batch, responses, q);
    }

    /** One iteration of the guaranteed worker: build a batch, query it
        until a query succeeds, counting every failure as a retry, and only
        then add the batch size to `attempts`. */
    method GuaranteedIteration(draws: seq<Draw>, responses: seq<Response>)
      returns (batch: seq<Wallet>, retryCountLocal: nat)
      requires Valid() && mode == Guaranteed
      requires |draws| == BATCH_SIZE
      requires EventuallySucceeds(Successful(draws), responses)
      modifies this`currentRpcIndex, this`outputFile, this`foundWallets, this`sent, this`retries, this`attempts
      ensures Valid()
      ensures batch == Successful(draws)
      ensures retryCountLocal == FirstSuccess(batch, responses)
      ensures retries == old(retries) + retryCountLocal
      ensures attempts == old(attempts) + |batch|
      ensures outputFile == old(outputFile) + SavedOver(batch, responses, retryCountLocal + 1)
      ensures foundWallets == old(foundWallets) + |SavedOver(batch, responses, retryCountLocal + 1)|
      ensures currentRpcIndex == IndexAfter(old(currentRpcIndex), retryCountLocal + 1, |rpcEndpoints|)
      ensures sent == old(sent) + Requests(Urls(rpcEndpoints, old(currentRpcIndex), retryCountLocal + 1), Addresses(batch))
    {
      batch := AssembleBatch(draws);
      var isSuccessful := false;
      retryCountLocal := 0;
      var q := 0;  // queries made so far: `responses[q]` answers the next one
      ghost var k := FirstSuccess(batch, responses);
      ghost var start := currentRpcIndex;
      ghost var addresses := Addresses(batch);
      while !isSuccessful
        invariant Valid()
        invariant q <= k + 1
        invariant isSuccessful <==> q == k + 1
        invariant retryCountLocal == (if isSuccessful then q - 1 else q)
        invariant retries == old(retries) + retryCountLocal
        invariant attempts == old(attempts)
        invariant outputFile == old(outputFile) + SavedOver(batch, responses, q)
        invariant currentRpcIndex == IndexAfter(start, q, |rpcEndpoints|)
        invariant sent == old(sent) + Requests(Urls(rpcEndpoints, start, q), addresses)
        decreases k + 1 - q
      {
        isSuccessful := QueryInRetryLoop(batch, responses, q, start, old(outputFile), old(sent));
        q := q + 1;
        if !isSuccessful {
          retryCountLocal := retryCountLocal + 1;
          retries := retries + 1;
        }
      }
      assert q == k + 1 && retryCountLocal == k;
      attempts := attempts + |batch|;
    }

    /** One iteration of the pro worker: build a batch, query it once, add
        the batch size to `attempts` whatever the outcome, and count a failed
        query in `rpcErrors`. */
    method ProIteration(draws: seq<Draw>, response: Response) returns (batch: seq<Wallet>, success: bool)
      requires Valid() && mode == Pro
      requires |draws| == BATCH_SIZE
      modifies this`currentRpcIndex, this`outputFile, this`foundWallets, this`sent, this`rpcErrors, this`attempts
      ensures Valid()
      ensures batch == Successful(draws)
      ensures success == Outcome(batch, response).success
      ensures attempts == old(attempts) + |batch|
      ensures rpcErrors == old(rpcErrors) + (if success then 0 else 1)
      ensures outputFile == old(outputFile) + Outcome(batch, response).saved
      ensures foundWallets == old(foundWallets) + |Outcome(batch, response).saved|
      ensures currentRpcIndex == NextIndex(old(currentRpcIndex), |rpcEndpoints|)
      ensures sent == old(sent) + [Request(rpcEndpoints[old(currentRpcIndex)], Addresses(batch))]
    {
      batch := AssembleBatch(draws);
      success := CheckBalanceBatch(batch, response);
      attempts := attempts + |batch|;
      if !success {
        rpcErrors := rpcErrors + 1;
      }
    }
  }
}
