/**
 * The manage-debit operation: the source account grants a debitor a standing
 * authorization over one issued asset, or revokes it. Validation rejects a
 * malformed asset and self-delegation; apply runs its checks in a fixed order
 * and writes nothing on a rejection.
 */
module ManageDebit {
  import opened Ledger
  import opened DebitFrame

  datatype ManageDebitResultCode =
    | Success
    | Malformed
    | NotFound
    | LowReserve
    | AlreadyExists
    | NoDebitor
    | NoTrust

  class ManageDebitOpFrame {
    const sourceId: AccountId
    const debitor: AccountId
    const asset: Asset
    const toDelete: bool
    /** The source account as loaded for this operation; apply adjusts its sub-entry count. */
    var sourceAccount: Account
    /** The operation's result slot; None until a result code is set. */
    var result: Option<ManageDebitResultCode>

    constructor (source: Account, debitor: AccountId, asset: Asset, toDelete: bool)
      ensures sourceId == source.id && sourceAccount == source
      ensures this.debitor == debitor && this.asset == asset && this.toDelete == toDelete
      ensures result == None
    {
      sourceId := source.id;
      this.debitor := debitor;
      this.asset := asset;
      this.toDelete := toDelete;
      sourceAccount := source;
      result := None;
    }

    /** The key of the authorization this operation manages. */
    function Key(): DebitKey {
      DebitKey(sourceId, debitor, asset)
    }

    /** The authorization a grant creates. */
    function NewEntry(): DebitEntry {
      DebitEntry(sourceId, debitor, asset)
    }

    /** Validation: a malformed asset or a debitor equal to the source is MALFORMED. */
    method DoCheckValid() returns (ok: bool)
      modifies this`result
      ensures ok <==> IsAssetValid(asset) && debitor != sourceId
      ensures !ok ==> result == Some(Malformed)
      ensures ok ==> result == old(result)
    {
      if !IsAssetValid(asset) {
        result := Some(Malformed);
        return false;
      }
      if sourceId == debitor {
        result := Some(Malformed);
        return false;
      }
      return true;
    }

    /**
     * Apply, run only after validation succeeded and the source account was
     * loaded from the ledger. Revoke: NOT_FOUND without an authorization,
     * LOW_RESERVE when dropping a sub-entry is refused, else the account is
     * written with one sub-entry fewer and the authorization deleted.
     * Grant: ALREADY_EXISTS, then NO_DEBITOR, then NO_TRUST, then LOW_RESERVE,
     * else the account is written with one sub-entry more and the entry added.
     */
    method DoApply(db: Database, delta: LedgerDelta, lm: LedgerManager) returns (r: Result<bool>)
      requires Coherent(db)
      requires IsAssetValid(asset) && sourceAccount.id == sourceId && sourceId in db.accounts
      modifies this`sourceAccount, this`result, db`debits, db`debitCache, db`accounts, delta
      ensures Coherent(db) && sourceAccount.id == sourceId
      ensures r.Ok? ==> result.Some? && (r.value <==> result == Some(Success))
      ensures old(Lookup(db.debits, Key())).Fault? ==> r.Fault?
      // revoke
      ensures toDelete && old(Lookup(db.debits, Key())) == Ok(None) ==>
        && r == Ok(false) && result == Some(NotFound)
        && db.debits == old(db.debits) && db.accounts == old(db.accounts)
        && sourceAccount == old(sourceAccount) && delta.changes == old(delta.changes)
      ensures var found := old(Lookup(db.debits, Key()));
        var reserve := AddNumEntries(old(sourceAccount), -1, lm);
        toDelete && found.Ok? && found.value.Some? ==>
          && (reserve.Fault? ==> r.Fault?)
          && (reserve == Ok(None) ==>
                && r == Ok(false) && result == Some(LowReserve)
                && db.debits == old(db.debits) && db.accounts == old(db.accounts)
                && sourceAccount == old(sourceAccount)
                && delta.changes == old(delta.changes) + [Recorded(DebitLE(found.value.value))])
          && (reserve.Ok? && reserve.value.Some? ==>
                && r == Ok(true) && result == Some(Success)
                && sourceAccount == reserve.value.value
                && db.accounts == old(db.accounts)[sourceId := reserve.value.value]
                && db.debits == old(db.debits) - {KeyFields(Key())}
                && delta.changes == old(delta.changes) + [Recorded(DebitLE(found.value.value)),
                     Modified(AccountLE(reserve.value.value)), Deleted(DebitLK(Key()))])
      // grant
      ensures var found := old(Lookup(db.debits, Key()));
        !toDelete && found.Ok? && found.value.Some? ==>
          && r == Ok(false) && result == Some(AlreadyExists)
          && db.debits == old(db.debits) && db.accounts == old(db.accounts)
          && sourceAccount == old(sourceAccount)
          && delta.changes == old(delta.changes) + [Recorded(DebitLE(found.value.value))]
      ensures !toDelete && old(Lookup(db.debits, Key())) == Ok(None) && debitor !in old(db.accounts) ==>
        && r == Ok(false) && result == Some(NoDebitor)
        && db.debits == old(db.debits) && db.accounts == old(db.accounts)
        && sourceAccount == old(sourceAccount) && delta.changes == old(delta.changes)
      ensures (!toDelete && old(Lookup(db.debits, Key())) == Ok(None) && debitor in old(db.accounts)
               && (sourceId, asset) !in db.trustLines) ==>
        && r == Ok(false) && result == Some(NoTrust)
        && db.debits == old(db.debits) && db.accounts == old(db.accounts)
        && sourceAccount == old(sourceAccount) && delta.changes == old(delta.changes)
      ensures var reserve := AddNumEntries(old(sourceAccount), 1, lm);
        (!toDelete && old(Lookup(db.debits, Key())) == Ok(None) && debitor in old(db.accounts)
         && (sourceId, asset) in db.trustLines) ==>
          && (reserve == Ok(None) ==>
                && r == Ok(false) && result == Some(LowReserve)
                && db.debits == old(db.debits) && db.accounts == old(db.accounts)
                && sourceAccount == old(sourceAccount) && delta.changes == old(delta.changes))
          && (reserve.Ok? && reserve.value.Some? && !IsValid(NewEntry()) ==> r.Fault?)
          && (reserve.Ok? && reserve.value.Some? && IsValid(NewEntry()) ==>
                && r == Ok(true) && result == Some(Success)
                && sourceAccount == reserve.value.value
                && db.accounts == old(db.accounts)[sourceId := reserve.value.value]
                && db.debits == old(db.debits)[KeyFields(Key()) := RowOf(NewEntry())]
                && Lookup(db.debits, Key()) == Ok(Some(NewEntry()))
                && delta.changes == old(delta.changes) + [Modified(AccountLE(reserve.value.value)),
                     Added(DebitLE(NewEntry()))])
    {
      var found := LoadDebit(db, sourceId, debitor, asset, delta);
      if found.Fault? {
        return Fault(found.reason);
      }

      if toDelete {
        if found.value.None? {
          result := Some(NotFound);
          return Ok(false);
        }
        var reserve := AddNumEntries(sourceAccount, -1, lm);
        if reserve.Fault? {
          return Fault(reserve.reason);
        }
        if reserve.value.None? {
          result := Some(LowReserve);
          return Ok(false);
        }
        sourceAccount := reserve.value.value;
        StoreChangeAccount(db, delta, sourceAccount);
        LookupFindsOwnKey(db.debits, Key());
        StoreDelete(db, delta, KeyOf(found.value.value));
        result := Some(Success);
        return Ok(true);
      }

      if found.value.Some? {
        result := Some(AlreadyExists);
        return Ok(false);
      }
      if debitor !in db.accounts {
        result := Some(NoDebitor);
        return Ok(false);
      }
      if (sourceId, asset) !in db.trustLines {
        result := Some(NoTrust);
        return Ok(false);
      }
      var entry := NewEntry();
      // adding one sub-entry never yields a negative count, so this cannot fault
      var reserve := AddNumEntries(sourceAccount, 1, lm);
      if reserve == Ok(None) {
        result := Some(LowReserve);
        return Ok(false);
      }
      sourceAccount := reserve.value.value;
      StoreChangeAccount(db, delta, sourceAccount);
      var added := StoreAdd(db, delta, entry);
      if added.Fault? {
        return Fault(added.reason);
      }
      result := Some(Success);
      return Ok(true);
    }
  }

  /**
   * A grant followed by a revoke of the same authorization both succeed, given
   * the reserve for one more sub-entry and for the original count, and leave the
   * relation and the source's sub-entry count as they were.
   */
  method GrantThenRevoke(db: Database, delta: LedgerDelta, lm: LedgerManager,
                         source: Account, debitor: AccountId, asset: Asset)
    returns (granted: Result<bool>, revoked: Result<bool>)
    requires Coherent(db)
    requires IsValid(DebitEntry(source.id, debitor, asset))
    requires Lookup(db.debits, DebitKey(source.id, debitor, asset)) == Ok(None)
    requires source.id in db.accounts && debitor in db.accounts && (source.id, asset) in db.trustLines
    requires source.balance >= lm.minBalance(source.numSubEntries + 1)
    requires source.balance >= lm.minBalance(source.numSubEntries)
    modifies db, delta
    ensures granted == Ok(true) && revoked == Ok(true)
    ensures db.debits == old(db.debits)
    ensures db.accounts == old(db.accounts)[source.id := source]
    ensures Coherent(db)
  {
    var grant := new ManageDebitOpFrame(source, debitor, asset, false);
    granted := grant.DoApply(db, delta, lm);
    var afterGrant := grant.sourceAccount;
    assert Lookup(db.debits, DebitKey(source.id, debitor, asset)).Ok?;
    var revoke := new ManageDebitOpFrame(afterGrant, debitor, asset, true);
    assert revoke.Key() == grant.Key();
    revoked := revoke.DoApply(db, delta, lm);
    assert afterGrant.(numSubEntries := afterGrant.numSubEntries - 1) == source;
  }
}
