/**
 * Response correlation (`check_balance_batch`): position i of the reply's
 * `result.value` belongs to position i of the batch. What one query records
 * and whether it reports success is given here as a function of the batch
 * and the reply; the class in module Hunter performs it step by step.
 */
module Correlation {
  import opened HunterTypes

  /** The address list sent with the request, index-aligned with the batch. */
  function Addresses(wallets: seq<Wallet>): (addresses: seq<string>)
    ensures |addresses| == |wallets|
    ensures forall i :: 0 <= i < |wallets| ==> addresses[i] == wallets[i].address
  {
    if wallets == [] then [] else [wallets[0].address] + Addresses(wallets[1..])
  }

  /** The smallest quotient that a correctly rounded conversion to an IEEE
      double carries past the largest finite double: 2^1024 - 2^970. */
  const DOUBLE_OVERFLOW: nat := 0xFFFF_FFFF_FFFF_FC00_0000_0000_0000_0000_0000_0000_0000_0000_0000_0000_0000_0000_0000_0000_0000_0000_0000_0000_0000_0000_0000_0000_0000_0000_0000_0000_0000_0000_0000_0000_0000_0000_0000_0000_0000_0000_0000_0000_0000_0000_0000_0000_0000_0000_0000_0000_0000_0000_0000_0000_0000_0000_0000_0000_0000_0000_0000_0000_0000_0000

  /** The smallest balance for which `balance_lamports / 1_000_000_000`
      raises `OverflowError`: its quotient rounds beyond every finite double. */
  const OVERFLOW_LAMPORTS: nat := LAMPORTS_PER_SOL * DOUBLE_OVERFLOW

  /** A non-null account holding a positive balance. */
  predicate IsHit(entry: AccountEntry)
  {
    entry.Account? && entry.lamports > 0
  }

  /** Entry `j` is saved: a hit whose balance converts to SOL, with a wallet
      at the same position. */
  predicate Saves(wallets: seq<Wallet>, accounts: seq<AccountEntry>, j: nat)
    requires j < |accounts|
  {
    IsHit(accounts[j]) && accounts[j].lamports < OVERFLOW_LAMPORTS && j < |wallets|
  }

  /** Entry `j` makes the account loop raise: its balance cannot be read, or
      it is a hit whose conversion to SOL overflows, or a hit with no wallet
      at that position (`wallets[i]` out of range). */
  predicate Raises(wallets: seq<Wallet>, accounts: seq<AccountEntry>, j: nat)
    requires j < |accounts|
  {
    || accounts[j].Unreadable?
    || (IsHit(accounts[j]) && (accounts[j].lamports >= OVERFLOW_LAMPORTS || j >= |wallets|))
  }

  function FirstRaiseFrom(wallets: seq<Wallet>, accounts: seq<AccountEntry>, from: nat): (r: nat)
    requires from <= |accounts|
    ensures from <= r <= |accounts|
    ensures forall j :: from <= j < r ==> !Raises(wallets, accounts, j)
    ensures r < |accounts| ==> Raises(wallets, accounts, r)
    decreases |accounts| - from
  {
    if from == |accounts| then from
    else if Raises(wallets, accounts, from) then from
    else FirstRaiseFrom(wallets, accounts, from + 1)
  }

  /** The position at which the account loop stops: the first entry that
      raises, or the end of the list. */
  function FirstRaise(wallets: seq<Wallet>, accounts: seq<AccountEntry>): (r: nat)
    ensures r <= |accounts|
    ensures forall j :: 0 <= j < r ==> !Raises(wallets, accounts, j)
    ensures r < |accounts| ==> Raises(wallets, accounts, r)
  {
    FirstRaiseFrom(wallets, accounts, 0)
  }

  /** The positions below `n` that are saved, in increasing order. */
  function SaveIndices(wallets: seq<Wallet>, accounts: seq<AccountEntry>, n: nat): (idx: seq<nat>)
    requires n <= |accounts|
    ensures forall k :: 0 <= k < |idx| ==> idx[k] < n && Saves(wallets, accounts, idx[k])
  {
    if n == 0 then []
    else SaveIndices(wallets, accounts, n - 1) + (if Saves(wallets, accounts, n - 1) then [n - 1] else [])
  }

  /** `SaveIndices` lists every saved position below `n`, each once, in
      increasing order. */
  lemma {:induction false} SaveIndicesExact(wallets: seq<Wallet>, accounts: seq<AccountEntry>, n: nat)
    requires n <= |accounts|
    ensures var idx := SaveIndices(wallets, accounts, n);
            && (forall k, l :: 0 <= k < l < |idx| ==> idx[k] < idx[l])
            && (forall j :: 0 <= j < n && Saves(wallets, accounts, j) ==> j in idx)
  {
    if n > 0 {
      SaveIndicesExact(wallets, accounts, n - 1);
    }
  }

  /** The record `save_wallet` writes for a saved position. */
  function FindingAt(wallets: seq<Wallet>, accounts: seq<AccountEntry>, j: nat): Finding
    requires j < |accounts| && Saves(wallets, accounts, j)
  {
    Finding(wallets[j].mnemonic, wallets[j].address, accounts[j].lamports)
  }

  ghost predicate AllSave(wallets: seq<Wallet>, accounts: seq<AccountEntry>, idx: seq<nat>)
  {
    forall k :: 0 <= k < |idx| ==> idx[k] < |accounts| && Saves(wallets, accounts, idx[k])
  }

  function FindingsAt(wallets: seq<Wallet>, accounts: seq<AccountEntry>, idx: seq<nat>): (found: seq<Finding>)
    requires AllSave(wallets, accounts, idx)
    ensures |found| == |idx|
    ensures forall k :: 0 <= k < |idx| ==> found[k] == FindingAt(wallets, accounts, idx[k])
  {
    if idx == [] then []
    else [FindingAt(wallets, accounts, idx[0])] + FindingsAt(wallets, accounts, idx[1..])
  }

  /** The records the account loop has appended after looking at the first
      `n` entries, when none of them raised. */
  function SavedPrefix(wallets: seq<Wallet>, accounts: seq<AccountEntry>, n: nat): seq<Finding>
    requires n <= |accounts|
  {
    if n == 0 then []
    else SavedPrefix(wallets, accounts, n - 1)
         + (if Saves(wallets, accounts, n - 1) then [FindingAt(wallets, accounts, n - 1)] else [])
  }

  lemma FindingsAtAppend(wallets: seq<Wallet>, accounts: seq<AccountEntry>, idx: seq<nat>, j: nat)
    requires AllSave(wallets, accounts, idx) && j < |accounts| && Saves(wallets, accounts, j)
    ensures AllSave(wallets, accounts, idx + [j])
    ensures FindingsAt(wallets, accounts, idx + [j]) == FindingsAt(wallets, accounts, idx) + [FindingAt(wallets, accounts, j)]
  {
    var both := idx + [j];
    assert forall k :: 0 <= k < |idx| ==> both[k] == idx[k];
  }

  /** The loop's records are the records of the saved positions (see
      `SaveIndices`), in increasing position. */
  lemma {:induction false} SavedPrefixIsSavedPositions(wallets: seq<Wallet>, accounts: seq<AccountEntry>, n: nat)
    requires n <= |accounts|
    ensures SavedPrefix(wallets, accounts, n) == FindingsAt(wallets, accounts, SaveIndices(wallets, accounts, n))
  {
    if n > 0 {
      SavedPrefixIsSavedPositions(wallets, accounts, n - 1);
      if Saves(wallets, accounts, n - 1) {
        FindingsAtAppend(wallets, accounts, SaveIndices(wallets, accounts, n - 1), n - 1);
      }
    }
  }

  /** What one `check_balance_batch` call appends to the findings file, and
      what it returns. */
  datatype QueryOutcome = QueryOutcome(saved: seq<Finding>, success: bool)

  /** A query succeeds exactly when the reply is a 200, its body can be
      inspected, and no entry of `result.value` raises; a 200 reply without
      `result.value` succeeds too. Only a 200 reply with `result.value`
      records anything. */
  function Outcome(wallets: seq<Wallet>, response: Response): (o: QueryOutcome)
    ensures o.success <==>
      && response.Reply?
      && response.status == 200
      && !response.body.Unparsable?
      && (response.body.Value? ==>
            forall j :: 0 <= j < |response.body.accounts| ==> !Raises(wallets, response.body.accounts, j))
    ensures !(response.Reply? && response.status == 200 && response.body.Value?) ==> o.saved == []
  {
    match response
    case TransportError => QueryOutcome([], false)
    case Reply(status, body) =>
      if status != 200 then QueryOutcome([], false)
      else match body
        case Unparsable => QueryOutcome([], false)
        case NoValue => QueryOutcome([], true)
        case Value(accounts) =>
          var stop := FirstRaise(wallets, accounts);
          QueryOutcome(SavedPrefix(wallets, accounts, stop), stop == |accounts|)
  }

  /** On a successful query the records are exactly the hits of the reply:
      one per non-null entry with a positive balance, in increasing position,
      each carrying the mnemonic and address of the wallet at that position. */
  lemma {:induction false} SuccessSavesEveryHit(wallets: seq<Wallet>, accounts: seq<AccountEntry>)
    requires Outcome(wallets, Reply(200, Value(accounts))).success
    ensures Outcome(wallets, Reply(200, Value(accounts))).saved
            == FindingsAt(wallets, accounts, SaveIndices(wallets, accounts, |accounts|))
    ensures forall j :: 0 <= j < |accounts| && IsHit(accounts[j]) ==>
              && j < |wallets| && accounts[j].lamports < OVERFLOW_LAMPORTS
              && FindingAt(wallets, accounts, j) in Outcome(wallets, Reply(200, Value(accounts))).saved
  {
    SavedPrefixIsSavedPositions(wallets, accounts, |accounts|);
    SaveIndicesExact(wallets, accounts, |accounts|);
    var idx := SaveIndices(wallets, accounts, |accounts|);
    var saved := Outcome(wallets, Reply(200, Value(accounts))).saved;
    forall j | 0 <= j < |accounts| && IsHit(accounts[j])
      ensures j < |wallets| && accounts[j].lamports < OVERFLOW_LAMPORTS
      ensures FindingAt(wallets, accounts, j) in saved
    {
      assert !Raises(wallets, accounts, j);
      assert Saves(wallets, accounts, j);
      assert j in idx;
      var k :| 0 <= k < |idx| && idx[k] == j;
      assert saved[k] == FindingAt(wallets, accounts, j);
    }
  }

  /** A reply whose entries are all null or hold no lamports records nothing. */
  lemma NoHitRecordsNothing(wallets: seq<Wallet>, accounts: seq<AccountEntry>)
    requires forall j :: 0 <= j < |accounts| ==> !IsHit(accounts[j])
    ensures Outcome(wallets, Reply(200, Value(accounts))).saved == []
  {
    NoHitSavesNothing(wallets, accounts, FirstRaise(wallets, accounts));
  }

  lemma {:induction false} NoHitSavesNothing(wallets: seq<Wallet>, accounts: seq<AccountEntry>, n: nat)
    requires n <= |accounts|
    requires forall j :: 0 <= j < |accounts| ==> !IsHit(accounts[j])
    ensures SavedPrefix(wallets, accounts, n) == []
  {
    if n > 0 {
      NoHitSavesNothing(wallets, accounts, n - 1);
    }
  }

  /** The records of the first `n` entries depend only on those entries. */
  lemma {:induction false} SavedPrefixAgree(wallets: seq<Wallet>, a: seq<AccountEntry>, b: seq<AccountEntry>, n: nat)
    requires n <= |a| && n <= |b| && a[..n] == b[..n]
    ensures SavedPrefix(wallets, a, n) == SavedPrefix(wallets, b, n)
  {
    if n > 0 {
      assert a[n - 1] == a[..n][n - 1] == b[..n][n - 1] == b[n - 1];
      assert a[..n - 1] == a[..n][..n - 1] == b[..n][..n - 1] == b[..n - 1];
      SavedPrefixAgree(wallets, a, b, n - 1);
    }
  }

  /** An exception partway through the account loop keeps the records made
      before it: a failing reply records exactly what the same reply cut just
      before the failing entry would record, and that cut reply succeeds. */
  lemma MidLoopExceptionKeepsEarlierSaves(wallets: seq<Wallet>, accounts: seq<AccountEntry>)
    requires FirstRaise(wallets, accounts) < |accounts|
    ensures !Outcome(wallets, Reply(200, Value(accounts))).success
    ensures var cut := accounts[..FirstRaise(wallets, accounts)];
            && Outcome(wallets, Reply(200, Value(cut))).success
            && Outcome(wallets, Reply(200, Value(accounts))).saved == Outcome(wallets, Reply(200, Value(cut))).saved
  {
    var stop := FirstRaise(wallets, accounts);
    var cut := accounts[..stop];
    assert forall j :: 0 <= j < stop ==> cut[j] == accounts[j];
    assert forall j :: 0 <= j < |cut| ==> !Raises(wallets, cut, j) by {
      forall j | 0 <= j < |cut| ensures !Raises(wallets, cut, j) {
        assert !Raises(wallets, accounts, j);
      }
    }
    assert FirstRaise(wallets, cut) == stop;
    assert cut[..stop] == accounts[..stop];
    SavedPrefixAgree(wallets, cut, accounts, stop);
  }

  /** Strictly increasing naturals below `m` number at most `m`. */
  lemma {:induction false} IncreasingBelowIsShort(idx: seq<nat>, m: nat)
    requires forall k :: 0 <= k < |idx| ==> idx[k] < m
    requires forall k, l :: 0 <= k < l < |idx| ==> idx[k] < idx[l]
    ensures |idx| <= m
    decreases m
  {
    if idx != [] {
      var n := |idx| - 1;
      assert forall k :: 0 <= k < n ==> idx[..n][k] < idx[n];
      IncreasingBelowIsShort(idx[..n], idx[n]);
    }
  }

  /** One query records at most one finding per wallet of the batch. */
  lemma QuerySavesAtMostBatch(wallets: seq<Wallet>, response: Response)
    ensures |Outcome(wallets, response).saved| <= |wallets|
  {
    if response.Reply? && response.status == 200 && response.body.Value? {
      var accounts := response.body.accounts;
      SavedPrefixIsSavedPositions(wallets, accounts, FirstRaise(wallets, accounts));
      SaveIndicesExact(wallets, accounts, FirstRaise(wallets, accounts));
      IncreasingBelowIsShort(SaveIndices(wallets, accounts, FirstRaise(wallets, accounts)), |wallets|);
    }
  }

  /** A failed query leaves records behind only when it was a 200 reply with
      `result.value` whose account loop raised after some hit. */
  lemma FailedQuerySavesOnlyMidLoop(wallets: seq<Wallet>, response: Response)
    requires !Outcome(wallets, response).success && Outcome(wallets, response).saved != []
    ensures response.Reply? && response.status == 200 && response.body.Value?
    ensures FirstRaise(wallets, response.body.accounts) < |response.body.accounts|
  {
  }

  /** The conversion of a balance to SOL fails from `OVERFLOW_LAMPORTS` on:
      one lamport less is recorded and the query succeeds; at the bound
      nothing is recorded and the query fails. */
  lemma OverflowBoundary(w: Wallet)
    ensures Outcome([w], Reply(200, Value([Account(OVERFLOW_LAMPORTS - 1)])))
            == QueryOutcome([Finding(w.mnemonic, w.address, OVERFLOW_LAMPORTS - 1)], true)
    ensures Outcome([w], Reply(200, Value([Account(OVERFLOW_LAMPORTS)]))) == QueryOutcome([], false)
  {
    var below, at := [Account(OVERFLOW_LAMPORTS - 1)], [Account(OVERFLOW_LAMPORTS)];
    assert !Raises([w], below, 0) && Saves([w], below, 0);
    assert FirstRaise([w], below) == 1;
    assert SavedPrefix([w], below, 1) == [Finding(w.mnemonic, w.address, OVERFLOW_LAMPORTS - 1)];
    assert Raises([w], at, 0);
    assert FirstRaise([w], at) == 0;
  }

  /** Three candidates A, B, C and balances 0, 5 000 000 000, 0: exactly one
      record, for B, with 5 000 000 000 lamports, and the query succeeds. */
  lemma SingleHitScenario(ma: string, mb: string, mc: string)
    ensures var wallets := [Wallet(ma, "A"), Wallet(mb, "B"), Wallet(mc, "C")];
            Outcome(wallets, Reply(200, Value([Account(0), Account(5_000_000_000), Account(0)])))
              == QueryOutcome([Finding(mb, "B", 5_000_000_000)], true)
  {
    var wallets := [Wallet(ma, "A"), Wallet(mb, "B"), Wallet(mc, "C")];
    var accounts := [Account(0), Account(5_000_000_000), Account(0)];
    assert FirstRaise(wallets, accounts) == 3 by {
      assert !Raises(wallets, accounts, 0) && !Raises(wallets, accounts, 1) && !Raises(wallets, accounts, 2);
    }
    assert SavedPrefix(wallets, accounts, 1) == [];
    assert SavedPrefix(wallets, accounts, 2) == [Finding(mb, "B", 5_000_000_000)];
  }
}
