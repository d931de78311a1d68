/**
 * Values shared by the whole pipeline: the two run modes and their
 * constants, the candidates a worker generates, the records written to the
 * findings file, and the abstract shape of a `getMultipleAccounts` reply.
 */
module HunterTypes {

  datatype Option<+T> = None | Some(value: T)

  /** The two scripts: the retry-until-success one and the single-attempt one. */
  datatype Mode = Guaranteed | Pro

  /** Number of generator calls that make up one batch (`batch_size` in `worker`). */
  const BATCH_SIZE: nat := 100

  /** Lamports in one SOL, the divisor of the balance shown in a record. */
  const LAMPORTS_PER_SOL: nat := 1_000_000_000

  /** The configured RPC endpoint pool of each mode. */
  function Endpoints(mode: Mode): (pool: seq<string>)
    ensures |pool| >= 1
  {
    match mode
    case Guaranteed => ["https://api.mainnet-beta.solana.com"]
    case Pro => ["https://api.mainnet-beta.solana.com", "https://rpc.ankr.com/solana"]
  }

  /** Thread count used when the answer is empty, not a number or out of range. */
  function DefaultThreads(mode: Mode): nat
  {
    match mode
    case Guaranteed => 8
    case Pro => 2
  }

  /** Largest accepted thread count. */
  function MaxThreads(mode: Mode): nat
  {
    match mode
    case Guaranteed => 12
    case Pro => 4
  }

  /** One output of the key-derivation collaborator: `(mnemonic, address)`,
      or `None` for the `(None, None)` it returns when derivation raises. */
  type Draw = Option<(string, string)>

  /** A batch entry, the dictionary `{'mnemonic': ..., 'address': ...}`. */
  datatype Wallet = Wallet(mnemonic: string, address: string)

  /** One record appended to the findings file. The balance is kept in
      lamports; the file shows it divided by 10^9. */
  datatype Finding = Finding(mnemonic: string, address: string, lamports: int)

  /** One element of `result.value` in the reply. */
  datatype AccountEntry =
    | Null                      // JSON null: the account does not exist
    | Account(lamports: int)    // an account object with its `lamports`
    | Unreadable                // an object whose `['lamports'] > 0` test raises

  /** The JSON body of a 200 reply. */
  datatype Body =
    | Unparsable                          // `response.json()` or the key tests raise
    | NoValue                             // parsed, but `result` or `result.value` is absent
    | Value(accounts: seq<AccountEntry>)  // `result.value`

  /** What `session.post` gives back. */
  datatype Response =
    | TransportError                   // the post raised (timeout, connection error)
    | Reply(status: int, body: Body)

  /** A `getMultipleAccounts` request as sent: target URL and address list. */
  datatype Request = Request(url: string, addresses: seq<string>)
}
