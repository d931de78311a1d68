/**
 * Batch assembly (the first loop of `worker`): the generator is called
 * `BATCH_SIZE` times and only the draws whose mnemonic and address are both
 * non-empty strings enter the batch, in the order they were drawn.
 */
module Batch {
  import opened HunterTypes

  /** `if mnemonic and address`: derivation succeeded and both strings are non-empty. */
  predicate Kept(draw: Draw)
  {
    draw.Some? && |draw.value.0| > 0 && |draw.value.1| > 0
  }

  function ToWallet(draw: Draw): Wallet
    requires Kept(draw)
  {
    Wallet(draw.value.0, draw.value.1)
  }

  /** The wallets a run of draws contributes to the batch. */
  function Successful(draws: seq<Draw>): (batch: seq<Wallet>)
    ensures |batch| <= |draws|
  {
    if draws == [] then []
    else
      var last := draws[|draws| - 1];
      Successful(draws[..|draws| - 1]) + (if Kept(last) then [ToWallet(last)] else [])
  }

  /** The positions of the kept draws, in increasing order: an independent
      description of which draws survive. */
  function KeptIndices(draws: seq<Draw>): (idx: seq<nat>)
    ensures forall k :: 0 <= k < |idx| ==> idx[k] < |draws| && Kept(draws[idx[k]])
    ensures forall k, l :: 0 <= k < l < |idx| ==> idx[k] < idx[l]
    ensures forall j :: 0 <= j < |draws| && Kept(draws[j]) ==> j in idx
  {
    if draws == [] then []
    else
      var n := |draws| - 1;
      KeptIndices(draws[..n]) + (if Kept(draws[n]) then [n] else [])
  }

  /** The batch holds exactly the kept draws, the k-th wallet coming from the
      k-th kept position: nothing dropped, nothing reordered, nothing invented. */
  lemma {:induction false} SuccessfulAreKeptDraws(draws: seq<Draw>)
    ensures |Successful(draws)| == |KeptIndices(draws)|
    ensures forall k :: 0 <= k < |Successful(draws)| ==>
              Successful(draws)[k] == ToWallet(draws[KeptIndices(draws)[k]])
  {
    if draws != [] {
      var n := |draws| - 1;
      var prefix := draws[..n];
      SuccessfulAreKeptDraws(prefix);
      forall k | 0 <= k < |KeptIndices(prefix)|
        ensures draws[KeptIndices(prefix)[k]] == prefix[KeptIndices(prefix)[k]]
      {
      }
    }
  }

  /** The batch is full exactly when every draw was kept. */
  lemma {:induction false} FullBatchIffAllKept(draws: seq<Draw>)
    ensures |Successful(draws)| == |draws| <==> forall j :: 0 <= j < |draws| ==> Kept(draws[j])
  {
    if draws != [] {
      var n := |draws| - 1;
      FullBatchIffAllKept(draws[..n]);
      assert forall j :: 0 <= j < n ==> draws[..n][j] == draws[j];
    }
  }

  /** Builds `wallets_batch` from the outputs of the `BATCH_SIZE` generator calls. */
  method AssembleBatch(draws: seq<Draw>) returns (batch: seq<Wallet>)
    requires |draws| == BATCH_SIZE
    ensures batch == Successful(draws)
    ensures |batch| <= BATCH_SIZE
  {
    batch := [];
    for i := 0 to BATCH_SIZE
      invariant batch == Successful(draws[..i])
    {
      assert draws[..i + 1][..i] == draws[..i];
      match draws[i]
      case Some((mnemonic, address)) =>
        if |mnemonic| > 0 && |address| > 0 {
          batch := batch + [Wallet(mnemonic, address)];
        }
      case None =>
    }
    assert draws[..BATCH_SIZE] == draws;
  }
}
