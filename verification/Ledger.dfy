/** The documents the refund and the solvency report share: cross-border transactions, the
    BOB wallets, their movements and the admin audit log. */
module Ledger {
  import opened MapSums
  import opened Options

  /** The status enumeration of the Transaction model. */
  datatype Status =
    | Pending | Initiated | PendingComprobante | PayinPending | PayinConfirmed | PayinCompleted
    | Processing | InTransit | PayoutPending | PayoutSent | PayoutPendingUsdcSend | PayoutInTransit
    | PendingFunding | PendingFxReview | Completed | Failed | Refunded | Cancelled
    | Sep24DepositPending | Sep24WithdrawPending | Sep31Waiting

  datatype RefundMethod = WalletBOB | BankTransfer | External

  /** `transaction.refund`; the empty string stands for an absent reference. */
  datatype Refund = Refund(kind: RefundMethod, wtxId: string, bankReference: string, amount: real)

  datatype Tx = Tx(
    userId: nat,
    legalEntity: string,
    originCurrency: string,
    originalAmount: real,
    status: Status,
    qrPaid: bool,            // bankQr.paidAt is set
    payinCertified: bool,    // confirmationDetails.confirmedAt is set
    refund: Option<Refund>)

  /** A WalletTransaction of type 'refund'. */
  datatype Movement = Movement(
    wtxId: string, userId: nat, amount: real, balanceBefore: real, balanceAfter: real, reference: string)

  /** The AdminAuditLog entry 'transaction.refund.wallet'. */
  datatype AuditEntry = AuditEntry(
    txId: string, wtxId: string, statusBefore: Status, balanceBefore: real, balanceAfter: real)

  datatype Books = Books(
    txs: map<string, Tx>, wallets: map<nat, real>, movements: seq<Movement>, audit: seq<AuditEntry>)

  /** A wallet that does not exist yet has balance zero. */
  function Balance(wallets: map<nat, real>, user: nat): real {
    if user in wallets then wallets[user] else 0.0
  }

  /** Evidence that the money went back: a wallet movement or a bank document. */
  predicate HasEvidence(tx: Tx) {
    tx.refund.Some? && (tx.refund.value.wtxId != "" || tx.refund.value.bankReference != "")
  }

  predicate PostPayin(s: Status) {
    || s.PayinConfirmed? || s.PayinCompleted? || s.Processing? || s.InTransit? || s.PayoutPending? || s.PayoutSent?
    || s.PayoutPendingUsdcSend? || s.PayoutInTransit? || s.PendingFunding? || s.PendingFxReview?
  }

  /** The money was collected: by the status alone, or by evidence of the collection. */
  predicate PayinSettled(tx: Tx) {
    PostPayin(tx.status) || tx.qrPaid || tx.payinCertified
  }

  /** The transaction's amount is owed out of the bank's cash. */
  predicate IsCommitted(tx: Tx, entity: string) {
    && tx.legalEntity == entity
    && tx.originCurrency == "BOB"
    && tx.status != Completed
    && PayinSettled(tx)
    && (tx.status == Refunded ==> !HasEvidence(tx))
  }

  function CommittedAmounts(txs: map<string, Tx>, entity: string): map<string, real> {
    map id | id in txs && IsCommitted(txs[id], entity) :: txs[id].originalAmount
  }

  /** Σ originalAmount over the committed transactions, before it is rounded to cents. */
  ghost function Committed(txs: map<string, Tx>, entity: string): real {
    Sum(CommittedAmounts(txs, entity))
  }

  /** BOB wallets belong to one entity, for good. */
  const WALLET_ENTITY := "SRL"

  /** Σ balance over the BOB wallets of an entity. */
  ghost function Liability(wallets: map<nat, real>, entity: string): real {
    if entity == WALLET_ENTITY then Sum(wallets) else 0.0
  }

  /** What one transaction contributes to the committed total. */
  function Owed(tx: Tx, entity: string): real {
    if IsCommitted(tx, entity) then tx.originalAmount else 0.0
  }

  lemma CommittedUpdate(txs: map<string, Tx>, id: string, tx: Tx, entity: string)
    requires id in txs
    ensures Committed(txs[id := tx], entity) == Committed(txs, entity) - Owed(txs[id], entity) + Owed(tx, entity)
  {
    var before, after := CommittedAmounts(txs, entity), CommittedAmounts(txs[id := tx], entity);
    var rest := before - {id};
    assert after - {id} == rest;
    if id in before {
      SumRemove(before, id);
    } else {
      assert rest == before;
    }
    if id in after {
      SumRemove(after, id);
    } else {
      assert after - {id} == after;
    }
  }

  /** Which operations are owed out of the bank's cash. With the collection on record: all of an entity's
      boliviano operations that are neither completed nor refunded with evidence. Without it: those whose
      status is only reached with the payin confirmed. */
  lemma CommittedExactly(tx: Tx, entity: string)
    ensures IsCommitted(tx, entity) ==> tx.legalEntity == entity && tx.originCurrency == "BOB"
    ensures tx.legalEntity == entity && tx.originCurrency == "BOB" && (tx.qrPaid || tx.payinCertified) ==>
              (IsCommitted(tx, entity) <==>
                 tx.status != Completed
                 && !(tx.status == Refunded && tx.refund.Some?
                      && (tx.refund.value.wtxId != "" || tx.refund.value.bankReference != "")))
    ensures tx.legalEntity == entity && tx.originCurrency == "BOB" && !tx.qrPaid && !tx.payinCertified ==>
              (IsCommitted(tx, entity) <==>
                 || tx.status == PayinConfirmed || tx.status == PayinCompleted || tx.status == Processing
                 || tx.status == InTransit || tx.status == PayoutPending || tx.status == PayoutSent
                 || tx.status == PayoutPendingUsdcSend || tx.status == PayoutInTransit
                 || tx.status == PendingFunding || tx.status == PendingFxReview)
  {
  }
}
