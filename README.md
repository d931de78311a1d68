# Solana wallet hunter: batch pipeline model

This project models the sequential bookkeeping of the two wallet-hunter
scripts, `solana_hunter_guaranteed.py` and `solana_hunter_pro.py`. The two
scripts are near-identical copies of one batch pipeline, so one model with a
`Mode` (`Guaranteed` or `Pro`) covers both. The mode fixes the endpoint pool,
the default and maximum thread counts, and what a worker does after querying
a batch.

- `HunterTypes`: the shared values.
  - The per-mode constants.
  - A generator draw (`Option` of a mnemonic and address pair).
  - The wallet and finding records.
  - An abstract `getMultipleAccounts` reply. A reply is a transport error, or a status and a body. The body cannot be inspected, or has no `result.value`, or carries a list of null, readable and unreadable account entries.
- `Rotation`: round-robin endpoint selection (`get_rpc_url`) as index arithmetic, and the URL sequence that successive calls return.
- `Batch`: building `wallets_batch` from `BATCH_SIZE` generator outputs. A specification function, an independent index description, and the loop as a method proved against them.
- `Correlation`: what one `check_balance_batch` call appends to the findings file and whether it reports success, as a function of the batch and the reply. This includes the quirks of the source:
  - a 200 reply without `result.value` counts as a success;
  - an exception in the account loop keeps the records already written but reports failure.
- `Retry`: the guaranteed mode's retry-until-success policy over a sequence of replies: the first success, the records written over all attempts, and the requests posted.
- `ThreadCount`: the start-up prompt. It strips the answer, parses it with Python `int()` rules (sign, underscores between digits, at most 4300 digits), checks it against `[1, max]`, and falls back to the default.
- `Hunter`: the `SolanaHunter` class. Its fields are:
  - the endpoint index;
  - the counters `attempts`, `found_wallets`, `retries` and `rpc_errors`;
  - the findings file as an append-only sequence of records;
  - a ghost log of posted requests.

  Its methods perform `get_rpc_url`, `save_wallet`, `check_balance_batch` (with its account loop) and one worker iteration per mode, step by step. Each method is proved against the functions of the modules above.

Behaviours of the code worth knowing, several of which its own comments and messages do not suggest:
- A failed query can leave records behind. `check_balance_batch` saves hits one at a time (solana_hunter_guaranteed.py:88-94). So an exception later in the account loop returns False after earlier records were written (`MidLoopExceptionKeepsEarlierSaves`, `FailedQuerySavesOnlyMidLoop`).
- A 200 reply whose body lacks `result` or `value` is reported as a success with no findings (`Outcome`). The comment at :95 calls this a successful query.
- A balance of at least `OVERFLOW_LAMPORTS` makes the division by 10^9 at :92 raise `OverflowError`. Then nothing is saved for that entry and the query fails (`OverflowBoundary`).
- The pro worker adds the batch size to `attempts` after every query, failed or not (solana_hunter_pro.py:153-156, `ProIteration`). The guaranteed worker adds it only after a successful query, as the comment at solana_hunter_guaranteed.py:161 says.
- In guaranteed mode, a query that saves a hit and then raises is retried, and the retry saves the same wallet again (`RetryRecordsTwice`). So the findings counter can grow past the attempts counter.
- The code never checks that the reply's list has the batch's length. An entry past the end of the batch with a positive balance raises and ends the loop. Entries missing at the end leave their wallets unchecked, yet the query still succeeds. The start-up message "NO wallets generated in this mode will be skipped" (solana_hunter_guaranteed.py:175) does not hold for such a reply.

## Model

| member | source | states |
|---|---|---|
| HunterTypes.Endpoints | solana_hunter_pro.py:19-22 | each mode's pool holds at least one endpoint, so rotating modulo its size is defined |
| Rotation.NextIndex | solana_hunter_guaranteed.py:45 | the next index stays inside the pool: the successor, or 0 after the last endpoint |
| Rotation.IndexAfter | solana_hunter_guaranteed.py:45 | after any number of calls the index is still inside the pool |
| Rotation.Urls | solana_hunter_guaranteed.py:42-46 | k successive calls return exactly k URLs |
| Rotation.IndexAfterShift | solana_hunter_guaranteed.py:45 | one call followed by k calls moves the index as k + 1 calls do |
| Rotation.UrlsAt | solana_hunter_guaranteed.py:44-45 | the j-th of k successive calls returns the endpoint at the index reached after j earlier calls |
| Rotation.UrlsSnoc | solana_hunter_guaranteed.py:44-46 | one more call appends the endpoint at the index reached so far |
| Rotation.SingleEndpointIndexStaysZero | solana_hunter_guaranteed.py:19-22 | with the single configured endpoint the index stays 0 however many calls are made |
| Rotation.SingleEndpointIsConstant | solana_hunter_guaranteed.py:42-46 | with one endpoint every call returns that endpoint |
| Rotation.TwoIndexParity | solana_hunter_pro.py:46 | with two endpoints the index after k calls from 0 is k mod 2, so it is always 0 or 1 |
| Rotation.TwoEndpointsAlternate | solana_hunter_pro.py:43-47 | with two endpoints successive calls from index 0 return endpoint 0, 1, 0, 1, ... |
| Batch.Successful | solana_hunter_guaranteed.py:142-146 | the batch built from a run of draws is no longer than the run |
| Batch.KeptIndices | solana_hunter_guaranteed.py:145 | lists every draw position whose mnemonic and address are both non-empty, each once, in increasing order |
| Batch.SuccessfulAreKeptDraws | solana_hunter_guaranteed.py:142-146 | the batch has one wallet per kept draw, the k-th wallet built from the k-th kept draw: nothing dropped, reordered or invented |
| Batch.FullBatchIffAllKept | solana_hunter_pro.py:143-147 | the batch has all draws exactly when every draw was kept |
| Batch.AssembleBatch | solana_hunter_pro.py:143-147 | the loop over the 100 generator outputs builds exactly the specified batch, of at most 100 wallets |
| Correlation.Addresses | solana_hunter_guaranteed.py:71 | the posted address list has the batch's length and position i holds the address of wallet i |
| Correlation.FirstRaise | solana_hunter_guaranteed.py:88-94 | the account loop stops at the first entry that raises: an unreadable balance, a hit whose division by 10^9 overflows a double, or a hit with no wallet at its position; it reaches the end when none raises |
| Correlation.SaveIndices | solana_hunter_guaranteed.py:88-94 | every listed position is below the bound and is a hit whose balance converts to SOL, with a wallet at the same position |
| Correlation.SaveIndicesExact | solana_hunter_guaranteed.py:88-94 | the listed positions are every such hit, each once, in increasing order |
| Correlation.FindingsAt | solana_hunter_guaranteed.py:93-94 | the k-th record carries the mnemonic and address of the wallet at the k-th listed position and that entry's lamports |
| Correlation.SavedPrefixIsSavedPositions | solana_hunter_guaranteed.py:88-94 | the records the loop writes over a prefix of the reply are the records of that prefix's saved positions, in increasing position |
| Correlation.Outcome | solana_hunter_guaranteed.py:83-100 | what one query records and returns: it succeeds if and only if the reply is a 200, its body can be inspected, and no account entry raises, so a body without `result.value` succeeds; a transport error, a non-200 reply, an uninspectable body or a body without `result.value` records nothing |
| Correlation.SuccessSavesEveryHit | solana_hunter_pro.py:88-96 | on success the records are exactly those of the non-null entries with positive lamports, in increasing position, each with its own wallet; every such entry has a wallet, a balance that converts to SOL, and is recorded |
| Correlation.NoHitRecordsNothing | solana_hunter_pro.py:90-93 | a reply whose entries are all null or hold no positive balance records nothing |
| Correlation.MidLoopExceptionKeepsEarlierSaves | solana_hunter_guaranteed.py:88-100 | when an entry raises, the query fails and keeps exactly the records that the reply cut before that entry would make, and that cut reply succeeds |
| Correlation.QuerySavesAtMostBatch | solana_hunter_guaranteed.py:88-94 | one query writes at most one record per wallet of the batch |
| Correlation.FailedQuerySavesOnlyMidLoop | solana_hunter_pro.py:85-102 | a failed query that left records was a 200 reply with `result.value` whose loop raised |
| Correlation.OverflowBoundary | solana_hunter_guaranteed.py:91-96 | a balance one lamport below `OVERFLOW_LAMPORTS` is recorded and the query succeeds; a balance of `OVERFLOW_LAMPORTS` records nothing and the query fails |
| Correlation.SingleHitScenario | solana_hunter_guaranteed.py:86-95 | candidates A, B, C with balances 0, 5 000 000 000, 0 give exactly one record, for B with 5 000 000 000 lamports, and success |
| Retry.FirstSuccess | solana_hunter_guaranteed.py:149-159 | the number of failed queries before the first successful one: the query at that position succeeds |
| Retry.FirstSuccessIsFirst | solana_hunter_guaranteed.py:151-155 | every query before the first success fails, so each of them is counted as a retry |
| Retry.FirstSuccessStep | solana_hunter_guaranteed.py:151-154 | up to the first success, a query ends the loop exactly when it is the first success |
| Retry.Requests | solana_hunter_guaranteed.py:151-152 | the j-th posted request goes to the j-th URL and carries the same address list |
| Retry.SavedOverBound | solana_hunter_guaranteed.py:151-152 | n queries of one batch write at most n times the batch size records |
| Retry.FinalQueryRecordsLast | solana_hunter_guaranteed.py:151-152 | the successful query's records end the batch's records, and every hit of the successful reply is among them with its own wallet |
| Retry.CleanFailuresRecordNothing | solana_hunter_guaranteed.py:151-155 | failures that never reach the account loop record nothing |
| Retry.SaveThenRaise | solana_hunter_guaranteed.py:88-100 | a reply with a hit followed by a hit past the batch records the first hit and fails |
| Retry.SaveAndSucceed | solana_hunter_guaranteed.py:88-95 | a clean reply with one hit records it and succeeds |
| Retry.RetryRecordsTwice | solana_hunter_guaranteed.py:148-163 | a failed query that saved a hit, then a successful retry, record the same wallet twice: no deduplication across retries |
| ThreadCount.Strip | solana_hunter_guaranteed.py:219 | the stripped answer is a contiguous piece of the input that starts and ends with a non-space, with only white space cut on either side |
| ThreadCount.StripOfPadded | solana_hunter_guaranteed.py:219 | stripping white-space padding gives the padded answer back |
| ThreadCount.StripIdempotent | solana_hunter_pro.py:219 | stripping twice is stripping once |
| ThreadCount.WellFormedEndsInDigit | solana_hunter_guaranteed.py:220 | a digit string `int()` accepts ends in a digit |
| ThreadCount.ParseInt | solana_hunter_guaranteed.py:220 | `int()` on the stripped answer: an accepted string begins with a digit or a sign and ends in a digit, and only a leading minus gives a negative number; any string of more than 4300 digits (underscores not counted, signed or not) is rejected |
| ThreadCount.DigitCountCons | solana_hunter_guaranteed.py:220 | the digit count `int()` limits is additive from the front: a leading digit adds one, a sign or underscore adds nothing |
| ThreadCount.ParseShowRoundTrip | solana_hunter_guaranteed.py:220 | parsing the decimal rendering of any integer of at most 4300 digits gives that integer back, and a longer rendering is rejected |
| ThreadCount.ChooseThreadCount | solana_hunter_guaranteed.py:218-226 | the thread count is in [1, max]; a blank or unparsable answer gives the default; a parsed number is taken when in range and replaced by the default otherwise |
| ThreadCount.InRangeAnswerIsTaken | solana_hunter_pro.py:219-223 | any in-range number, padded with white space or not, is taken as typed |
| ThreadCount.OutOfRangeFallsBack | solana_hunter_guaranteed.py:221-223 | any number outside [1, max] gives the default |
| ThreadCount.TooManyDigitsFallsBack | solana_hunter_guaranteed.py:220-226 | an answer of more than 4300 digits, leading zeros included, gives the default |
| ThreadCount.BlankFallsBack | solana_hunter_guaranteed.py:220 | an answer of white space only gives the default |
| ThreadCount.RejectedFallsBack | solana_hunter_guaranteed.py:224-226 | a stripped answer that `int()` rejects gives the default |
| ThreadCount.NonNumericExamples | solana_hunter_pro.py:224-226 | "abc", "1__0" and "4_" are rejected and give the default |
| ThreadCount.UnderscoreExample | solana_hunter_guaranteed.py:220 | "1_0" parses as 10, as `int()` accepts single underscores between digits |
| Hunter.SolanaHunter.constructor | solana_hunter_guaranteed.py:17-33 | the mode's endpoint pool, index 0, all counters 0, the findings file as it was |
| Hunter.SolanaHunter.GetRpcUrl | solana_hunter_guaranteed.py:42-46 | returns the endpoint at the old index and moves the index to the next one, wrapping; nothing else changes |
| Hunter.SolanaHunter.SaveWallet | solana_hunter_guaranteed.py:113-116 | appends exactly one record after all earlier ones and adds exactly 1 to `found_wallets` |
| Hunter.SolanaHunter.CheckBalanceBatch | solana_hunter_guaranteed.py:68-100 | posts one request with the batch's addresses to the current endpoint, advances the index, appends the query's records and returns its success, as `Correlation.Outcome` specifies |
| Hunter.SolanaHunter.ScanAccounts | solana_hunter_guaranteed.py:88-94 | saves each hit up to the first entry that raises (an unreadable balance, an overflowing conversion, or no wallet at the position), and succeeds exactly when no entry raises |
| Hunter.SolanaHunter.QueryInRetryLoop | solana_hunter_guaranteed.py:151-152 | query q + 1 of a batch: returns that reply's success, which holds exactly at the first success, and extends the records, the endpoint index and the request log of the first q queries to those of q + 1 |
| Hunter.SolanaHunter.GuaranteedIteration | solana_hunter_guaranteed.py:142-163 | with K failures before the first success: `retries` and the local count grow by exactly K; K + 1 identical requests go to the rotating endpoints; all their records are appended; `attempts` grows by the batch size once |
| Hunter.SolanaHunter.ProIteration | solana_hunter_pro.py:142-156 | one query; `attempts` grows by the batch size whatever the outcome; `rpc_errors` grows by 1 exactly when the query failed |

## Left out

- Key derivation in `generate_wallet`: the mnemonic, BIP-44 path, ed25519 key and base58 address come from foreign libraries. A worker receives the generator's outputs as a sequence of optional pairs, where `None` stands for the `(None, None)` returned when derivation raises.
- HTTP and JSON-RPC: the session, the 5-second timeout, the payload and JSON decoding are abstracted to the `Response` datatype. A body that cannot be decoded, or whose key tests or `result.value` iteration raise, is `Unparsable`. An account entry whose `lamports` lookup or comparison raises is `Unreadable`. A `lamports` value that JSON decodes as a float rather than an integer is not modelled.
- Threads and the lock: one worker runs sequentially and each `with self.lock` block is one step. Races on `current_rpc_index`, which is updated without the lock, are not modelled.
- Workers run forever in the source. The model performs one iteration per call, and the generic-exception `sleep(1)` recovery of the worker loop is left out.
- `start()`, the `yes` confirmation prompt, `KeyboardInterrupt`, `print_stats`, console output, `time.sleep`, the start time and speed figures are left out: they are I/O, timing and floating point.
- Hunter.SolanaHunter.SaveWallet (`save_wallet`): the record's timestamp, the lamports-to-SOL float conversion and the `.9f` text layout are left out. A record keeps the integer lamports. A failing file write, which would make the query report failure, is not modelled.
- Hunter.SolanaHunter.GuaranteedIteration: it requires a reply sequence in which some reply succeeds. The source loops forever when every query fails, and the model does not capture that endless retrying.
- ThreadCount.Strip: it removes only the ASCII white space that `str.strip()` removes. Unicode spaces are not modelled.
- ThreadCount.ParseInt: it accepts only ASCII digits. Unicode decimal digits, which `int()` also accepts, are not modelled. Its 4300-digit limit is CPython's default; a limit changed through `sys.set_int_max_str_digits` or `PYTHONINTMAXSTRDIGITS`, and Python versions without the limit, are not modelled.
