/**
 * The create-account operation: validation refuses a destination equal to the
 * source; apply refuses an existing destination and otherwise adds a new
 * account seeded with the ledger's starting sequence number.
 */
module CreateAccount {
  import opened Ledger

  datatype CreateAccountResultCode = Success | Malformed | AlreadyExist

  class CreateAccountOpFrame {
    const sourceId: AccountId
    const destination: AccountId
    /** Carried by the operation; this version of apply does not move it. */
    const startingBalance: int
    var sourceAccount: Account
    var result: Option<CreateAccountResultCode>

    constructor (source: Account, destination: AccountId, startingBalance: int)
      ensures sourceId == source.id && sourceAccount == source
      ensures this.destination == destination && this.startingBalance == startingBalance
      ensures result == None
    {
      sourceId := source.id;
      this.destination := destination;
      this.startingBalance := startingBalance;
      sourceAccount := source;
      result := None;
    }

    /** The account apply creates: the destination, at the ledger's starting sequence number. */
    function NewAccount(startingSequenceNumber: int): (a: Account)
      ensures a.id == destination && a.seqNum == startingSequenceNumber
      ensures a.balance == 0 && a.numSubEntries == 0
    {
      Account(destination, 0, 0, startingSequenceNumber)
    }

    /** Validation: MALFORMED iff the destination is the source. */
    method DoCheckValid() returns (ok: bool)
      modifies this`result
      ensures ok <==> destination != sourceId
      ensures !ok ==> result == Some(Malformed)
      ensures ok ==> result == old(result)
    {
      if destination == sourceId {
        result := Some(Malformed);
        return false;
      }
      return true;
    }

    /**
     * Apply: an existing destination gives ALREADY_EXIST and stores nothing;
     * otherwise the source account is written back and the new destination
     * account is added, and the result is SUCCESS. The source account was
     * loaded from the ledger, so it is present there.
     */
    method DoApply(db: Database, delta: LedgerDelta) returns (ok: bool)
      requires sourceAccount.id == sourceId && sourceId in db.accounts
      modifies this`result, db`accounts, delta`changes
      ensures ok <==> destination !in old(db.accounts)
      ensures !ok ==> result == Some(AlreadyExist)
                      && db.accounts == old(db.accounts) && delta.changes == old(delta.changes)
      ensures ok ==> result == Some(Success)
      ensures ok ==> db.accounts == old(db.accounts)[sourceId := sourceAccount]
                                                     [destination := NewAccount(delta.startingSequenceNumber)]
      ensures ok ==> delta.changes == old(delta.changes) + [Modified(AccountLE(sourceAccount)),
                                                            Added(AccountLE(NewAccount(delta.startingSequenceNumber)))]
      ensures ok ==> forall id :: id in db.accounts && id != sourceId && id != destination ==>
                       id in old(db.accounts) && db.accounts[id] == old(db.accounts)[id]
    {
      if destination !in db.accounts {
        StoreChangeAccount(db, delta, sourceAccount);
        var dest := NewAccount(delta.startingSequenceNumber);
        var added := StoreAddAccount(db, delta, dest);
        result := Some(Success);
        return true;
      }
      result := Some(AlreadyExist);
      return false;
    }
  }
}
