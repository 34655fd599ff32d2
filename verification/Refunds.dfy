/** Refunding a cross-border payment: the single-act wallet refund, and the registration of a
    refund made by other means. */
module Refunds {
  import opened Ledger
  import opened Options
  import opened MapSums

  /** What the wallet refund decides to write after reading its snapshot. */
  datatype Plan =
    | NoSuchTx
    | AlreadyProven
    | Credit(txAfter: Tx, statusBefore: Status, user: nat, balanceBefore: real)

  function PlanWalletRefund(b: Books, txId: string, wtxId: string, amount: real): Plan {
    if txId !in b.txs then NoSuchTx
    else
      var tx := b.txs[txId];
      if HasEvidence(tx) then AlreadyProven
      else
        Credit(
          tx.(status := Refunded, refund := Some(Refund(WalletBOB, wtxId, "", amount))),
          tx.status, tx.userId, Balance(b.wallets, tx.userId))
  }

  /** The four writes of the session, applied together. */
  function ApplyCredit(b: Books, txId: string, wtxId: string, amount: real, p: Plan): Books
    requires p.Credit?
  {
    Books(
      b.txs[txId := p.txAfter],
      b.wallets[p.user := p.balanceBefore + amount],
      b.movements + [Movement(wtxId, p.user, amount, p.balanceBefore, p.balanceBefore + amount, txId)],
      b.audit + [AuditEntry(txId, wtxId, p.statusBefore, p.balanceBefore, p.balanceBefore + amount)])
  }

  /** The wallet refund run alone: everything is written or nothing is. */
  function WalletRefund(b: Books, txId: string, wtxId: string, amount: real, auditOk: bool): Books {
    var p := PlanWalletRefund(b, txId, wtxId, amount);
    if p.Credit? && auditOk then ApplyCredit(b, txId, wtxId, amount, p) else b
  }

  /** A registration request; `wtxId` and `bankReference` are already trimmed. */
  datatype Request = Request(
    kind: RefundMethod, wtxId: string, bankReference: string, amount: Option<real>)

  function RequestedAmount(r: Request, tx: Tx): real {
    if r.amount.Some? then r.amount.value else tx.originalAmount
  }

  /** The HTTP status the registration answers with. */
  function RegistrationStatus(b: Books, txId: string, r: Request, auditOk: bool): (code: nat)
    ensures code in {200, 400, 404, 409, 500}
  {
    if r.kind == BankTransfer && r.bankReference == "" then 400
    else if txId !in b.txs then 404
    else if HasEvidence(b.txs[txId]) then 409
    else if RequestedAmount(r, b.txs[txId]) <= 0.0 then 400
    else if r.kind == WalletBOB && r.wtxId == "" && !auditOk then 500
    else 200
  }

  function RegisteredBooks(b: Books, txId: string, r: Request, newWtxId: string, auditOk: bool): Books {
    if RegistrationStatus(b, txId, r, auditOk) != 200 then b
    else
      var tx := b.txs[txId];
      var amount := RequestedAmount(r, tx);
      if r.kind == WalletBOB && r.wtxId == "" then
        WalletRefund(b, txId, newWtxId, amount, auditOk)
      else
        b.(txs := b.txs[txId := tx.(status := Refunded, refund := Some(Refund(r.kind, r.wtxId, r.bankReference, amount)))])
  }

  class RefundDesk {
    var books: Books

    constructor (b: Books)
      ensures books == b
    {
      books := b;
    }

    /** The session works on its own copy of the documents; only the commit publishes it. */
    method CreditWallet(txId: string, wtxId: string, amount: real, auditOk: bool) returns (code: nat)
      modifies this
      ensures books == WalletRefund(old(books), txId, wtxId, amount, auditOk)
      ensures code == (match PlanWalletRefund(old(books), txId, wtxId, amount)
                       case NoSuchTx => 404
                       case AlreadyProven => 409
                       case Credit(_, _, _, _) => if auditOk then 200 else 500)
    {
      var txs, wallets, movements, audit := books.txs, books.wallets, books.movements, books.audit;
      if txId !in txs {
        return 404;
      }
      var tx := txs[txId];
      if HasEvidence(tx) {
        return 409;
      }
      var statusBefore := tx.status;
      if tx.userId !in wallets {
        wallets := wallets[tx.userId := 0.0];
      }
      var balanceBefore := wallets[tx.userId];
      wallets := wallets[tx.userId := wallets[tx.userId] + amount];
      movements := movements + [Movement(wtxId, tx.userId, amount, balanceBefore, balanceBefore + amount, txId)];
      tx := tx.(status := Refunded);
      tx := tx.(refund := Some(Refund(WalletBOB, wtxId, "", amount)));
      txs := txs[txId := tx];
      if !auditOk {
        return 500;  // recordAdminAction threw inside the session: the copy is dropped
      }
      audit := audit + [AuditEntry(txId, wtxId, statusBefore, balanceBefore, balanceBefore + amount)];
      books := Books(txs, wallets, movements, audit);
      return 200;
    }

    method Register(txId: string, r: Request, newWtxId: string, auditOk: bool) returns (code: nat)
      modifies this
      ensures code == RegistrationStatus(old(books), txId, r, auditOk)
      ensures books == RegisteredBooks(old(books), txId, r, newWtxId, auditOk)
    {
      if r.kind == BankTransfer && r.bankReference == "" {
        return 400;
      }
      if txId !in books.txs {
        return 404;
      }
      var tx := books.txs[txId];
      if HasEvidence(tx) {
        return 409;
      }
      var amount := if r.amount.Some? then r.amount.value else tx.originalAmount;
      if amount <= 0.0 {
        return 400;
      }
      if r.kind == WalletBOB && r.wtxId == "" {
        code := CreditWallet(txId, newWtxId, amount, auditOk);
        return;
      }
      tx := tx.(status := Refunded, refund := Some(Refund(r.kind, r.wtxId, r.bankReference, amount)));
      books := books.(txs := books.txs[txId := tx]);
      return 200;
    }
  }

  // ── What a registration does ──────────────────────────────────────────────

  /** The wallet is credited by the registration itself. */
  predicate WalletRoute(r: Request) {
    r.kind == WalletBOB && r.wtxId == ""
  }

  /** The answers: 400 for a bank refund without a reference or an amount that is not positive, 404 for an
      unknown operation, 409 for one that has evidence, 500 when the wallet session cannot be audited, and
      200 otherwise; every refusal leaves the books alone. */
  lemma RegisterAnswers(b: Books, txId: string, r: Request, newWtxId: string, auditOk: bool)
    ensures var code := RegistrationStatus(b, txId, r, auditOk);
            var noReference := r.kind == BankTransfer && r.bankReference == "";
            var known := txId in b.txs;
            var proven := known && b.txs[txId].refund.Some?
                          && (b.txs[txId].refund.value.wtxId != "" || b.txs[txId].refund.value.bankReference != "");
            var paid := if r.amount.Some? then r.amount.value else if known then b.txs[txId].originalAmount else 0.0;
            && (code == 404 <==> !noReference && !known)
            && (code == 409 <==> !noReference && proven)
            && (code == 400 <==> noReference || (known && !proven && paid <= 0.0))
            && (code == 500 <==> !noReference && known && !proven && paid > 0.0 && WalletRoute(r) && !auditOk)
            && (code == 200 <==> !noReference && known && !proven && paid > 0.0 && (WalletRoute(r) ==> auditOk))
            && (code != 200 ==> RegisteredBooks(b, txId, r, newWtxId, auditOk) == b)
  {
  }

  /** What an accepted registration pays and records: the requested amount, or the original one; and on the
      wallet route that very amount goes to the owner's wallet, with one movement and one audit entry. */
  lemma RegisterPays(b: Books, txId: string, r: Request, newWtxId: string, auditOk: bool)
    requires RegistrationStatus(b, txId, r, auditOk) == 200
    ensures txId in b.txs
    ensures var b' := RegisteredBooks(b, txId, r, newWtxId, auditOk);
            var tx := b.txs[txId];
            var paid := match r.amount case Some(a) => a case None => tx.originalAmount;
            && paid > 0.0
            && b'.txs == b.txs[txId := b'.txs[txId]]
            && b'.txs[txId] == tx.(status := Refunded, refund := b'.txs[txId].refund)
            && b'.txs[txId].refund ==
                 Some(Refund(r.kind, if WalletRoute(r) then newWtxId else r.wtxId,
                             if WalletRoute(r) then "" else r.bankReference, paid))
            && (forall user :: Balance(b'.wallets, user) ==
                  Balance(b.wallets, user) + if WalletRoute(r) && user == tx.userId then paid else 0.0)
            && b'.movements == b.movements +
                 (if WalletRoute(r)
                  then [Movement(newWtxId, tx.userId, paid, Balance(b.wallets, tx.userId),
                                 Balance(b.wallets, tx.userId) + paid, txId)]
                  else [])
            && b'.audit == b.audit +
                 (if WalletRoute(r)
                  then [AuditEntry(txId, newWtxId, tx.status, Balance(b.wallets, tx.userId),
                                   Balance(b.wallets, tx.userId) + paid)]
                  else [])
  {
  }

  /** What the wallet session does when it commits; it refuses an unknown or a proven operation. */
  lemma WalletRefundPays(b: Books, txId: string, wtxId: string, amount: real)
    ensures PlanWalletRefund(b, txId, wtxId, amount).NoSuchTx? <==> txId !in b.txs
    ensures PlanWalletRefund(b, txId, wtxId, amount).AlreadyProven? <==>
              txId in b.txs && b.txs[txId].refund.Some?
              && (b.txs[txId].refund.value.wtxId != "" || b.txs[txId].refund.value.bankReference != "")
    ensures WalletRefund(b, txId, wtxId, amount, false) == b
    ensures PlanWalletRefund(b, txId, wtxId, amount).Credit? ==>
              var b', tx := WalletRefund(b, txId, wtxId, amount, true), b.txs[txId];
              && b'.txs == b.txs[txId := tx.(status := Refunded, refund := Some(Refund(WalletBOB, wtxId, "", amount)))]
              && b'.wallets == b.wallets[tx.userId := Balance(b.wallets, tx.userId) + amount]
              && |b'.movements| == |b.movements| + 1 && b'.movements[|b.movements|].amount == amount
  {
  }

  // ── Conservation ──────────────────────────────────────────────────────────

  /** Bank cash left once the committed operations and the wallet balances are paid. */
  ghost function Surplus(cash: real, b: Books, entity: string): real {
    cash - Committed(b.txs, entity) - Liability(b.wallets, entity)
  }

  /** A refund takes the obligation out of the operation and puts the amount into a wallet of SRL. */
  lemma WalletRefundEffect(b: Books, txId: string, wtxId: string, amount: real, entity: string)
    requires txId in b.txs && !HasEvidence(b.txs[txId]) && wtxId != ""
    ensures var b' := WalletRefund(b, txId, wtxId, amount, true);
            && Committed(b'.txs, entity) == Committed(b.txs, entity) - Owed(b.txs[txId], entity)
            && Liability(b'.wallets, entity) ==
                 Liability(b.wallets, entity) + if entity == WALLET_ENTITY then amount else 0.0
  {
    var p := PlanWalletRefund(b, txId, wtxId, amount);
    assert Owed(p.txAfter, entity) == 0.0;
    CommittedUpdate(b.txs, txId, p.txAfter, entity);
    SumUpdate(b.wallets, p.user, p.balanceBefore + amount);
  }

  /** For SRL the surplus is preserved exactly when the credit equals what the operation owed: the full
      original amount of a charged and unexecuted operation, nothing of any other. For another entity,
      whose wallets are never credited, exactly when the operation owed it nothing. */
  lemma WalletRefundConserves(cash: real, b: Books, txId: string, wtxId: string, amount: real, entity: string)
    requires txId in b.txs && !HasEvidence(b.txs[txId]) && wtxId != ""
    ensures Surplus(cash, WalletRefund(b, txId, wtxId, amount, true), entity) == Surplus(cash, b, entity)
        <==> Owed(b.txs[txId], entity) == if entity == WALLET_ENTITY then amount else 0.0
  {
    WalletRefundEffect(b, txId, wtxId, amount, entity);
  }

  /** A refund registered with a bank or wallet reference releases the operation's debt. */
  lemma ProvenRefundReleases(b: Books, txId: string, r: Request, entity: string)
    requires RegistrationStatus(b, txId, r, true) == 200
    requires r.wtxId != "" || (r.kind != WalletBOB && r.bankReference != "")
    ensures var b' := RegisteredBooks(b, txId, r, "", true);
            && b'.wallets == b.wallets
            && Committed(b'.txs, entity) == Committed(b.txs, entity) - Owed(b.txs[txId], entity)
  {
    var b' := RegisteredBooks(b, txId, r, "", true);
    CommittedUpdate(b.txs, txId, b'.txs[txId], entity);
  }

  /** A refund registered without any reference is documented to keep its debt counted. It does
      exactly when the collection itself is on record: a transaction counted only because of its
      in-progress status stops being counted once the status reads 'refunded'. */
  lemma UnprovenRefundKeepsDebt(b: Books, txId: string, r: Request, entity: string)
    requires RegistrationStatus(b, txId, r, true) == 200
    requires r.kind == External && r.wtxId == "" && r.bankReference == ""
    requires IsCommitted(b.txs[txId], entity) && b.txs[txId].originalAmount != 0.0
    ensures Committed(RegisteredBooks(b, txId, r, "", true).txs, entity) == Committed(b.txs, entity)
        <==> b.txs[txId].qrPaid || b.txs[txId].payinCertified
  {
    var b' := RegisteredBooks(b, txId, r, "", true);
    CommittedUpdate(b.txs, txId, b'.txs[txId], entity);
  }
}
