/**
 * The direct-debit operation: a debitor pays out of an owner's balance under a
 * standing authorization, by running a payment whose source is the owner and
 * translating the payment's failure codes into its own.
 */
module DirectDebit {
  import opened Ledger
  import opened DebitFrame

  datatype PaymentResultCode =
    | PaymentSuccess
    | PaymentMalformed
    | PaymentUnderfunded
    | PaymentSrcNoTrust
    | PaymentSrcNotAuthorized
    | PaymentNoDestination
    | PaymentNoTrust
    | PaymentNotAuthorized
    | PaymentLineFull
    | PaymentNoIssuer

  datatype DirectDebitResultCode =
    | Success
    | Malformed
    | NoDebit
    | OwnerUnderfunded
    | OwnerNoTrust
    | OwnerNotAuthorized
    | NoDestination
    | DestinationNoTrust
    | DestinationNotAuthorized
    | LineFull
    | NoIssuer

  /** The outer code of an operation result; only opInner carries an operation-specific code. */
  datatype OperationResultCode = OpInner | OpBadAuth | OpNoAccount

  /** A payment instruction. */
  datatype PaymentOp = PaymentOp(source: AccountId, destination: AccountId, asset: Asset, amount: int)

  /** The payment a direct debit asks for: the source comes from the authorization's owner. */
  datatype PaymentWithDebit = PaymentWithDebit(destination: AccountId, asset: Asset, amount: int)

  /** What running an inner payment frame (validation, then apply) reports. */
  datatype PaymentRun = PaymentRun(succeeded: bool, outer: OperationResultCode, inner: PaymentResultCode)

  /** The payment frame's own promise: a payment that succeeds reports PAYMENT_SUCCESS. */
  ghost predicate PaymentContract(pay: PaymentOp -> PaymentRun) {
    forall p :: pay(p).succeeded ==> pay(p).inner == PaymentSuccess
  }

  /**
   * Translation of a payment failure code into a direct-debit code of the same
   * meaning. The success code has no translation and faults.
   */
  function GetFromPayment(code: PaymentResultCode): (r: Result<DirectDebitResultCode>)
    ensures r.Fault? <==> code == PaymentSuccess
    ensures r.Ok? ==> r.value !in {Success, NoDebit}
    ensures code == PaymentMalformed <==> r == Ok(Malformed)
    ensures code == PaymentUnderfunded <==> r == Ok(OwnerUnderfunded)
    ensures code == PaymentSrcNoTrust <==> r == Ok(OwnerNoTrust)
    ensures code == PaymentSrcNotAuthorized <==> r == Ok(OwnerNotAuthorized)
    ensures code == PaymentNoDestination <==> r == Ok(NoDestination)
    ensures code == PaymentNoTrust <==> r == Ok(DestinationNoTrust)
    ensures code == PaymentNotAuthorized <==> r == Ok(DestinationNotAuthorized)
    ensures code == PaymentLineFull <==> r == Ok(LineFull)
    ensures code == PaymentNoIssuer <==> r == Ok(NoIssuer)
  {
    match code
    case PaymentMalformed => Ok(Malformed)
    case PaymentUnderfunded => Ok(OwnerUnderfunded)
    case PaymentSrcNoTrust => Ok(OwnerNoTrust)
    case PaymentSrcNotAuthorized => Ok(OwnerNotAuthorized)
    case PaymentNoDestination => Ok(NoDestination)
    case PaymentNoTrust => Ok(DestinationNoTrust)
    case PaymentNotAuthorized => Ok(DestinationNotAuthorized)
    case PaymentLineFull => Ok(LineFull)
    case PaymentNoIssuer => Ok(NoIssuer)
    case PaymentSuccess => Fault("Unexpected error code from payment")
  }

  /** The translation is one-to-one: distinct payment failures stay distinct. */
  lemma GetFromPaymentInjective(c1: PaymentResultCode, c2: PaymentResultCode)
    requires GetFromPayment(c1).Ok? && GetFromPayment(c1) == GetFromPayment(c2)
    ensures c1 == c2
  {
  }

  /**
   * The translation covers the payment taxonomy: every failure code, and each
   * of the nine direct-debit failure codes a payment can cause, is reached.
   */
  lemma GetFromPaymentOnto(d: DirectDebitResultCode)
    requires d !in {Success, NoDebit}
    ensures exists c :: c != PaymentSuccess && GetFromPayment(c) == Ok(d)
  {
    var c := match d
      case Malformed => PaymentMalformed
      case OwnerUnderfunded => PaymentUnderfunded
      case OwnerNoTrust => PaymentSrcNoTrust
      case OwnerNotAuthorized => PaymentSrcNotAuthorized
      case NoDestination => PaymentNoDestination
      case DestinationNoTrust => PaymentNoTrust
      case DestinationNotAuthorized => PaymentNotAuthorized
      case LineFull => PaymentLineFull
      case NoIssuer => PaymentNoIssuer
      case _ => PaymentSuccess;
    assert GetFromPayment(c) == Ok(d);
  }

  class DirectDebitOpFrame {
    /** The debitor: the account that submits the operation. */
    const sourceId: AccountId
    /** The owner of the authorization, whose balance pays. */
    const owner: AccountId
    const payWithDebit: PaymentWithDebit
    var result: Option<DirectDebitResultCode>

    constructor (sourceId: AccountId, owner: AccountId, payWithDebit: PaymentWithDebit)
      ensures this.sourceId == sourceId && this.owner == owner && this.payWithDebit == payWithDebit
      ensures result == None
    {
      this.sourceId := sourceId;
      this.owner := owner;
      this.payWithDebit := payWithDebit;
      result := None;
    }

    /** The authorization that must exist: owned by `owner`, held by the source. */
    function Key(): DebitKey {
      DebitKey(owner, sourceId, payWithDebit.asset)
    }

    /** The inner payment: source is the owner, everything else copied unchanged. */
    function InnerPayment(): (p: PaymentOp)
      ensures p.source == owner && p.destination == payWithDebit.destination
      ensures p.asset == payWithDebit.asset && p.amount == payWithDebit.amount
    {
      PaymentOp(owner, payWithDebit.destination, payWithDebit.asset, payWithDebit.amount)
    }

    /** Validation: MALFORMED iff the asset of the payment is malformed. */
    method DoCheckValid() returns (ok: bool)
      modifies this`result
      ensures ok <==> IsAssetValid(payWithDebit.asset)
      ensures !ok ==> result == Some(Malformed)
      ensures ok ==> result == old(result)
    {
      if !IsAssetValid(payWithDebit.asset) {
        result := Some(Malformed);
        return false;
      }
      return true;
    }

    /**
     * Apply, run only after validation succeeded. Without an authorization the
     * result is NO_DEBIT and no payment runs; a missing owner account is a
     * fault; otherwise the inner payment runs with the owner as source, and its
     * failure is translated (a failure outside opInner, or an untranslatable
     * code, is a fault). `paid` is the payment that ran, if any.
     */
    method DoApply(db: Database, pay: PaymentOp -> PaymentRun)
      returns (r: Result<bool>, ghost paid: Option<PaymentOp>)
      requires Coherent(db) && IsAssetValid(payWithDebit.asset)
      requires PaymentContract(pay)
      modifies this`result, db`debitCache
      ensures Coherent(db)
      ensures old(Lookup(db.debits, Key())).Fault? ==> r.Fault? && paid == None
      ensures old(Lookup(db.debits, Key())) == Ok(None) ==>
        r == Ok(false) && result == Some(NoDebit) && paid == None
      ensures var found := old(Lookup(db.debits, Key()));
        found.Ok? && found.value.Some? && owner !in db.accounts ==> r.Fault? && paid == None
      ensures var found := old(Lookup(db.debits, Key()));
        var run := pay(InnerPayment());
        found.Ok? && found.value.Some? && owner in db.accounts ==>
          && paid == Some(InnerPayment())
          && (run.succeeded ==> r == Ok(true) && result == Some(Success) && run.inner == PaymentSuccess)
          && (!run.succeeded && run.outer != OpInner ==> r.Fault?)
          && (!run.succeeded && run.outer == OpInner ==>
                match GetFromPayment(run.inner)
                case Ok(code) => r == Ok(false) && result == Some(code)
                case Fault(_) => r.Fault?)
    {
      paid := None;
      var found := LoadDebit(db, owner, sourceId, payWithDebit.asset, null);
      if found.Fault? {
        return Fault(found.reason), paid;
      }
      if found.value.None? {
        result := Some(NoDebit);
        return Ok(false), paid;
      }

      var op := InnerPayment();
      if owner !in db.accounts {
        return Fault("An error occurred while loading owner"), paid;
      }

      paid := Some(op);
      var run := pay(op);
      if !run.succeeded {
        if run.outer != OpInner {
          return Fault("Unexpected error code from payment"), paid;
        }
        var code := GetFromPayment(run.inner);
        if code.Fault? {
          return Fault(code.reason), paid;
        }
        result := Some(code.value);
        return Ok(false), paid;
      }

      result := Some(Success);
      return Ok(true), paid;
    }
  }
}
