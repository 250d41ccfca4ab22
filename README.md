# Debit authorizations in a ledger core

This project models the debit-authorization extension of a ledger node's
transaction core. A **debit authorization** lets a *debitor* account pay out
of an *owner* account's balance in one issued asset. The model covers four
parts:

- **the debit entry and its persistence** (`DebitFrame`). This covers:
  - validity;
  - deriving the `debits` relation's primary key (owner, debitor, issuer, asset code);
  - decoding rows;
  - the entry cache that sits in front of the relation;
  - add, delete and change in the store, each logged in the transaction's change log (the *delta*);
  - single, per-owner and full loads.
- **the manage-debit operation** (`ManageDebit`): the owner grants or revokes an authorization.
- **the direct-debit operation** (`DirectDebit`): the debitor runs a payment whose source is the owner. The payment's failure codes are translated into the operation's own codes.
- **the create-account operation** (`CreateAccount`): a new account is created at the ledger's starting sequence number.

`Ledger` holds the shared pieces:

- accounts, assets and asset well-formedness;
- the reserve rule for sub-entries;
- the durable store (the `Database` class, with the `debits` relation as a map from primary key to row, the cache, the accounts and the trust lines);
- the change log (the `LedgerDelta` class).

Fatal errors (thrown `runtime_error`s) are `Fault` results. Operation result
codes are stored in each operation frame's `result` field.

The central invariant is `DebitFrame.Coherent`. It says that every row sits
under its own primary key, and that every cache slot whose key has a
well-formed asset agrees with what a query of the relation would return.
Adding and loading preserve it for any key. Deleting preserves it when the
deleted key has a well-formed asset. Both operations' `DoApply` preserve it;
they run only on well-formed assets. Under it, loading a key with a
well-formed asset through the cache gives the same answer as querying the
relation. For a key with a malformed asset neither holds: see the stale-cache
point below.

Design points the model makes explicit:

- **The asset type is not part of the primary key.** Two keys with well-formed assets still derive distinct key fields, because a 4-character code has 1–4 characters and a 12-character code has 5–12 (`KeyFieldsInjective`). For a malformed key this fails: an AlphaNum12 key with a 2-character code and the AlphaNum4 key with the same code and issuer select the same row. For that reason coherence is stated only for keys with well-formed assets.
- **Deleting under a malformed key can leave a stale cache entry.** Take an entry with a 4-character code that is cached. A deletion under the 12-character key with the same code and issuer removes its row but flushes only the 12-character key's cache slot. The cached entry under the 4-character key is then out of date. No operation reaches this, because validation rejects malformed assets first.
- **`exists` never fills the cache.** It answers `true` from a cached entry. Otherwise, and also when the cache holds the absent marker, it queries the relation.
- **A failed `storeAdd` of a duplicate key still flushes that key's cache slot.** The flush comes before the insert. The relation and the delta stay unchanged.
- **The create-account operation does not move the starting balance.** The code stores the source account back unchanged and creates the destination with balance zero.
- **The reserve check on a revoke is a modelling assumption.** The account's sub-entry update is not modelled here. The revoke branch handles a refusal with LOW_RESERVE. So that this branch stays reachable, the model applies the reserve check to decrements as well as increments, against an abstract minimum-balance function.

## Model

| member | source | states |
|---|---|---|
| Ledger.AssetType | src/ledger/DebitFrame.cpp:190 | the stored asset-type discriminant is 0, 1 or 2 exactly for native, 4-character and 12-character assets |
| Ledger.AddNumEntries | src/transactions/ManageDebitOpFrame.cpp:44-52 | a negative resulting count is a fault; a balance below the minimum for the new count is a refusal; otherwise the account has the new count, meets the reserve, and nothing else about it changes |
| Ledger.StoreChangeAccount | src/transactions/CreateAccountOpFrame.cpp:44 | writing an account back replaces it under its id and logs one modification |
| Ledger.StoreAddAccount | src/transactions/CreateAccountOpFrame.cpp:50 | adding an account succeeds iff its id is new; then it is stored and one addition is logged, otherwise nothing changes |
| DebitFrame.IsValid | src/ledger/DebitFrame.cpp:99-111 | an entry is valid iff its asset is an issued (non-native) asset and well formed |
| DebitFrame.KeyFields | src/ledger/DebitFrame.cpp:55-76 | the key fields carry owner and debitor; issuer and code are those of an issued asset and empty for the native asset |
| DebitFrame.KeyFieldsInjective | src/ledger/DebitFrame.cpp:55-76 | for well-formed assets, two keys derive equal key fields iff the keys are equal |
| DebitFrame.ReadRow | src/ledger/DebitFrame.cpp:317-333 | decoding a row keeps owner and debitor, selects the asset variant by the type column, round-trips the key columns, and faults exactly on an unknown type or a missing issuer |
| DebitFrame.LoadRow | src/ledger/DebitFrame.cpp:317-340 | a processed row is the decoded entry when that entry is valid, and a fault iff decoding fails or the entry is invalid |
| DebitFrame.RowOf | src/ledger/DebitFrame.cpp:188-201 | the inserted row decodes back to the stored entry, sits under the entry's key fields, and passes the load check when the entry is valid |
| DebitFrame.Lookup | src/ledger/DebitFrame.cpp:245-276 | a query by key fields finds nothing iff no row has those fields; it faults iff the row under those fields fails to load; a found entry is the loaded row under those fields |
| DebitFrame.LookupFindsOwnKey | src/ledger/DebitFrame.cpp:260-276 | in a relation keyed by its rows, the entry found under a well-formed key has exactly that key |
| DebitFrame.CacheAgreesElsewhere | src/ledger/DebitFrame.cpp:154-167 | changing the relation at one primary key leaves every other well-formed cache slot in agreement |
| DebitFrame.Exists | src/ledger/DebitFrame.cpp:113-137 | a cached entry means true; otherwise the answer is whether a row has the key fields; under coherence, for a key with a well-formed asset, it is always that |
| DebitFrame.StoreDelete | src/ledger/DebitFrame.cpp:147-167 | the cache slot is flushed, the row under the key fields is removed (a no-op if absent), the deletion is always logged, and coherence is kept when the key's asset is well formed |
| DebitFrame.StoreChange | src/ledger/DebitFrame.cpp:169-173 | changing an authorization in place always faults |
| DebitFrame.StoreAdd | src/ledger/DebitFrame.cpp:175-214 | an invalid entry faults with nothing touched; otherwise the slot is flushed, and the insert succeeds iff the key fields are free, after which the entry is found by lookup and its addition logged; coherence is kept |
| DebitFrame.LoadDebits | src/ledger/DebitFrame.cpp:294-344 | the load succeeds iff every row processes; the entries are then the rows' entries in order; a fault is the fault of the first failing row |
| DebitFrame.LoadDebit | src/ledger/DebitFrame.cpp:221-292 | a cache hit returns the cached slot unchanged; a miss returns the query result, caches the found entry under its key or the absent marker under the queried key, records only a found entry in a supplied delta, keeps coherence, and under coherence equals the query for a key with a well-formed asset |
| DebitFrame.LoadDebitsForOwner | src/ledger/DebitFrame.cpp:346-364 | the previous contents are kept as a prefix; the appended entries all have the owner; the appended entries are exactly the rows' entries, in row order; every row of the owner contributes its entry; a fault iff some owner row fails |
| DebitFrame.OwnedByHas | src/ledger/DebitFrame.cpp:376-379 | every loaded entry is among the in-order entries of its own owner |
| DebitFrame.GroupByOwner | src/ledger/DebitFrame.cpp:376-379 | grouping puts each owner's entries in their original order, one per input entry; an owner appears only with at least one entry; every entry appears under its owner |
| DebitFrame.LoadAllDebits | src/ledger/DebitFrame.cpp:366-381 | each owner present maps to exactly the entries of its rows, one per row in row order, and has at least one; every entry in the map is the entry of some row; every row's entry appears under its owner; a fault iff some row fails |
| DebitFrame.AddLoadDelete | src/ledger/DebitFrame.cpp:113-292 | adding a valid entry under a free key and loading it gives the entry back and it exists; deleting it restores the relation, after which it does not exist and loading finds nothing |
| ManageDebit.ManageDebitOpFrame.DoCheckValid | src/transactions/ManageDebitOpFrame.cpp:127-150 | validation passes iff the asset is well formed and the debitor is not the source; otherwise MALFORMED |
| ManageDebit.ManageDebitOpFrame.DoApply | src/transactions/ManageDebitOpFrame.cpp:21-125 | per branch, in order: revoke gives NOT_FOUND, LOW_RESERVE, or SUCCESS with one sub-entry fewer and the row deleted; grant gives ALREADY_EXISTS, NO_DEBITOR, NO_TRUST, LOW_RESERVE, or SUCCESS with one sub-entry more and the entry added; every refusal leaves the relation and the accounts unchanged; the delta exactly, apart from the records of the debitor and trust-line loads; coherence kept |
| ManageDebit.GrantThenRevoke | src/transactions/ManageDebitTests.cpp:78-84 | with the trust line, the debitor and the reserve in place, a grant followed by a revoke both succeed and restore the relation and the source's sub-entry count |
| DirectDebit.GetFromPayment | src/transactions/DirectDebitOpFrame.cpp:21-84 | each of the nine payment failures maps to the direct-debit code of the same meaning; exactly the success code faults |
| DirectDebit.GetFromPaymentInjective | src/transactions/DirectDebitOpFrame.cpp:21-84 | distinct payment failures translate to distinct codes |
| DirectDebit.GetFromPaymentOnto | src/transactions/DirectDebitOpFrame.cpp:25-80 | every direct-debit failure code other than NO_DEBIT is reached by some payment failure |
| DirectDebit.DirectDebitOpFrame.InnerPayment | src/transactions/DirectDebitOpFrame.cpp:104-111 | the inner payment has the owner as source and the destination, asset and amount copied unchanged |
| DirectDebit.DirectDebitOpFrame.DoCheckValid | src/transactions/DirectDebitOpFrame.cpp:150-163 | validation passes iff the payment's asset is well formed; otherwise MALFORMED |
| DirectDebit.DirectDebitOpFrame.DoApply | src/transactions/DirectDebitOpFrame.cpp:86-148 | without an authorization: NO_DEBIT and no payment; a missing owner: a fault; otherwise the inner payment runs; success gives SUCCESS, an outer failure a fault, an inner failure its translated code; coherence kept |
| CreateAccount.CreateAccountOpFrame.NewAccount | src/transactions/CreateAccountOpFrame.cpp:46-48 | the new account is the destination with zero balance, no sub-entries and the ledger's starting sequence number |
| CreateAccount.CreateAccountOpFrame.DoCheckValid | src/transactions/CreateAccountOpFrame.cpp:70-85 | validation passes iff the destination differs from the source; otherwise MALFORMED |
| CreateAccount.CreateAccountOpFrame.DoApply | src/transactions/CreateAccountOpFrame.cpp:32-68 | success iff the destination is absent; then the source is written back and the new account added, logged in that order, and no other account changes; otherwise ALREADY_EXIST and nothing changes |

## Left out

- SQL text, prepared statements, timers, `countObjects`, `dropAll` and the table-creation statement are not modelled. The relation is a map from primary key to row, and a query's result set is a sequence of rows.
- Account public keys and asset codes are compared directly. Their string encodings (`toStrKey`, `assetCodeToStr`, `strToAssetCode`) are injective renamings and are not modelled. An issuer string that does not decode is a missing issuer in a row.
- `isAssetValid` belongs to the asset utilities, which are not modelled. `Ledger.IsAssetValid` stands in for it: codes of 1–4 and 5–12 ASCII alphanumerics.
- `Ledger.AddNumEntries`: the account's sub-entry update belongs to the account frame, which is not modelled. Its reserve rule is an abstract minimum-balance function of the sub-entry count. By assumption, the rule is checked on decrements as well as on increments. This keeps the revoke's LOW_RESERVE branch reachable. It is also the only reason `ManageDebit.GrantThenRevoke` requires the reserve for the original count.
- `Ledger.LedgerDelta`: the delta is a plain log of actions. Nested deltas, commit/rollback, the header frame and the `touch`/last-modified stamp are not modelled.
- The trust-line lookup is membership in a set of (account, asset) pairs. The entries that `loadTrustLine` and the account loads record in the delta are not modelled.
- `DirectDebit.DirectDebitOpFrame.DoApply`: the payment operation is not part of this model. It is a function parameter that reports success, the outer code and the inner code. Its effects on balances and trust lines are not modelled. Only its promise that a successful payment reports PAYMENT_SUCCESS (checked by an assertion in the source) is assumed.
- `ManageDebit.ManageDebitOpFrame.DoApply` and `DirectDebit.DirectDebitOpFrame.DoApply` require the asset to be well formed. In the source, validation always runs before apply.
- Amounts and balances are unbounded integers. The 64-bit range of amounts is not modelled.
- Metrics meters, copy constructors, assignment, `copy()`, the headers' accessors and the test printer are not modelled.
