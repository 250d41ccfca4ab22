/**
 * Ledger entry types shared by the debit-authorization core: accounts, assets,
 * debit authorizations, the row layout of the `debits` relation, the durable
 * store with its entry cache, and the change log (delta) of one transaction.
 */
module Ledger {

  datatype Option<+T> = None | Some(value: T)

  /** The outcome of a step that can hit a fatal fault (a thrown runtime_error). */
  datatype Result<+T> = Ok(value: T) | Fault(reason: string)

  /**
   * An account's public key. Its canonical string encoding is an injective
   * renaming, so the model compares identifiers directly.
   */
  type AccountId = nat

  /** An asset: the native currency or an issued asset with a (trimmed) code. */
  datatype Asset =
    | Native
    | CreditAlphaNum4(code: string, issuer: AccountId)
    | CreditAlphaNum12(code: string, issuer: AccountId)

  const ASSET_TYPE_NATIVE: nat := 0
  const ASSET_TYPE_CREDIT_ALPHANUM4: nat := 1
  const ASSET_TYPE_CREDIT_ALPHANUM12: nat := 2

  /** The discriminant of an asset, as stored in the `assettype` column. */
  function AssetType(a: Asset): (t: nat)
    ensures t == ASSET_TYPE_NATIVE <==> a.Native?
    ensures t == ASSET_TYPE_CREDIT_ALPHANUM4 <==> a.CreditAlphaNum4?
    ensures t == ASSET_TYPE_CREDIT_ALPHANUM12 <==> a.CreditAlphaNum12?
  {
    match a
    case Native => ASSET_TYPE_NATIVE
    case CreditAlphaNum4(_, _) => ASSET_TYPE_CREDIT_ALPHANUM4
    case CreditAlphaNum12(_, _) => ASSET_TYPE_CREDIT_ALPHANUM12
  }

  predicate IsAlphaNum(c: char) {
    ('a' <= c <= 'z') || ('A' <= c <= 'Z') || ('0' <= c <= '9')
  }

  predicate AllAlphaNum(code: string) {
    forall i :: 0 <= i < |code| ==> IsAlphaNum(code[i])
  }

  /**
   * Well-formedness of an asset descriptor: the native asset is well formed;
   * a 4-character code holds 1 to 4 alphanumerics, a 12-character code 5 to 12.
   */
  predicate IsAssetValid(a: Asset) {
    match a
    case Native => true
    case CreditAlphaNum4(code, _) => 1 <= |code| <= 4 && AllAlphaNum(code)
    case CreditAlphaNum12(code, _) => 5 <= |code| <= 12 && AllAlphaNum(code)
  }

  /** An account entry, reduced to the fields the core reads or writes. */
  datatype Account = Account(id: AccountId, balance: int, numSubEntries: nat, seqNum: int)

  /** The ledger manager's reserve rule: the minimum balance for a number of sub-entries. */
  datatype LedgerManager = LedgerManager(minBalance: nat -> int)

  /**
   * Changing an account's sub-entry count by `count`: a negative count is an
   * invalid account state (a fault); a balance below the minimum for the new
   * count is a refusal (None); otherwise the account with the new count.
   */
  function AddNumEntries(a: Account, count: int, lm: LedgerManager): (r: Result<Option<Account>>)
    ensures r.Fault? <==> a.numSubEntries + count < 0
    ensures r.Ok? && r.value.Some? ==>
      var b := r.value.value;
      b.numSubEntries == a.numSubEntries + count && b.balance >= lm.minBalance(b.numSubEntries)
      && b.id == a.id && b.balance == a.balance && b.seqNum == a.seqNum
    ensures r == Ok(None) ==> a.balance < lm.minBalance(a.numSubEntries + count)
  {
    var n := a.numSubEntries + count;
    if n < 0 then Fault("invalid account state")
    else if a.balance < lm.minBalance(n) then Ok(None)
    else Ok(Some(a.(numSubEntries := n)))
  }

  /** A debit authorization: `debitor` may pay out of `owner`'s balance in `asset`. */
  datatype DebitEntry = DebitEntry(owner: AccountId, debitor: AccountId, asset: Asset)

  /** The ledger key of a debit authorization. */
  datatype DebitKey = DebitKey(owner: AccountId, debitor: AccountId, asset: Asset)

  datatype LedgerEntry = DebitLE(debit: DebitEntry) | AccountLE(account: Account)

  datatype LedgerKey = DebitLK(debitKey: DebitKey) | AccountLK(accountId: AccountId)

  /** One action of the change log. */
  datatype DeltaAction =
    | Added(entry: LedgerEntry)
    | Modified(entry: LedgerEntry)
    | Deleted(key: LedgerKey)
    | Recorded(entry: LedgerEntry)

  /**
   * The primary key of the `debits` relation: owner, debitor, issuer and asset
   * code. A missing issuer stands for the empty string the key derivation
   * leaves for the native asset.
   */
  datatype DbKey = DbKey(owner: AccountId, debitor: AccountId, issuer: Option<AccountId>, code: string)

  /** One row of the `debits` relation, column by column. */
  datatype Row = Row(owner: AccountId, debitor: AccountId, assetType: nat, issuer: Option<AccountId>, code: string)

  /** The primary-key columns of a row. */
  function RowKey(row: Row): DbKey {
    DbKey(row.owner, row.debitor, row.issuer, row.code)
  }

  /** The durable store (debits relation, accounts, trust lines) and the debit entry cache. */
  class Database {
    var debits: map<DbKey, Row>
    var debitCache: map<DebitKey, Option<DebitEntry>>
    var accounts: map<AccountId, Account>
    var trustLines: set<(AccountId, Asset)>

    constructor (accounts: map<AccountId, Account>, trustLines: set<(AccountId, Asset)>)
      ensures this.debits == map[] && this.debitCache == map[]
      ensures this.accounts == accounts && this.trustLines == trustLines
    {
      this.debits := map[];
      this.debitCache := map[];
      this.accounts := accounts;
      this.trustLines := trustLines;
    }
  }

  /** The change log of the transaction being applied, with its ledger header's starting sequence number. */
  class LedgerDelta {
    var changes: seq<DeltaAction>
    const startingSequenceNumber: int

    constructor (startingSequenceNumber: int)
      ensures changes == [] && this.startingSequenceNumber == startingSequenceNumber
    {
      changes := [];
      this.startingSequenceNumber := startingSequenceNumber;
    }
  }

  /** Writes an existing account back and logs the modification. */
  method StoreChangeAccount(db: Database, delta: LedgerDelta, a: Account)
    modifies db`accounts, delta`changes
    ensures db.accounts == old(db.accounts)[a.id := a]
    ensures delta.changes == old(delta.changes) + [Modified(AccountLE(a))]
  {
    db.accounts := db.accounts[a.id := a];
    delta.changes := delta.changes + [Modified(AccountLE(a))];
  }

  /** Inserts a new account and logs the addition; an existing account is a fault. */
  method StoreAddAccount(db: Database, delta: LedgerDelta, a: Account) returns (r: Result<()>)
    modifies db`accounts, delta`changes
    ensures r.Ok? <==> a.id !in old(db.accounts)
    ensures r.Ok? ==> db.accounts == old(db.accounts)[a.id := a]
    ensures r.Ok? ==> delta.changes == old(delta.changes) + [Added(AccountLE(a))]
    ensures r.Fault? ==> db.accounts == old(db.accounts) && delta.changes == old(delta.changes)
  {
    if a.id in db.accounts {
      return Fault("Could not update data in SQL");
    }
    db.accounts := db.accounts[a.id := a];
    delta.changes := delta.changes + [Added(AccountLE(a))];
    return Ok(());
  }
}
