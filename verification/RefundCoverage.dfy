/** Refunds seen from the solvency report: paying a debt out of the committed amount into a
    wallet must not change what the report says about solvency. */
module RefundCoverage {
  import opened Ledger
  import opened Options
  import opened MapSums
  import opened Money
  import opened Refunds
  import opened TreasuryCoverage

  /** The BOB status when every account was read. */
  function StatusOf(gross: real, committed: real, liability: real): Solvency {
    AssetStatus(Some(Net(gross, Fixed2(committed))), false, liability)
  }

  /** "Covered or nothing to cover" before the refund says the same as "covered" after it. */
  predicate Neutral(gross: real, committed: real, liability: real, amount: real) {
    var before, after := StatusOf(gross, committed, liability), StatusOf(gross, committed - amount, liability + amount);
    before.Covered? || before.NoLiability? <==> after.Covered?
  }

  lemma Fixed2Debt(committed: real, amount: real)
    requires 0.0 <= amount <= committed && WholeCents(amount)
    ensures Fixed2(committed - amount) == Fixed2(committed) - amount
  {
    Round2Shift(committed - amount, amount);
  }

  lemma NetStatus(gross: real, committed: real, liability: real)
    requires liability > 0.0
    ensures StatusOf(gross, committed, liability) == Covered <==> Fixed2(gross) - Fixed2(committed) >= liability
  {
    Fixed2Facts(committed);
    NetOf(gross, Fixed2(committed), liability);
  }

  /** For a whole-cent amount the report is neutral exactly when there was a wallet balance to
      begin with or the cash covered the committed amount: the net is cut off at zero. */
  lemma NeutralExactly(gross: real, committed: real, liability: real, amount: real)
    requires 0.0 < amount <= committed && WholeCents(amount) && liability >= 0.0
    ensures Neutral(gross, committed, liability, amount)
        <==> liability > 0.0 || Fixed2(gross) >= Fixed2(committed)
  {
    Fixed2Debt(committed, amount);
    NetStatus(gross, committed - amount, liability + amount);
    if liability > 0.0 {
      NetStatus(gross, committed, liability);
    }
  }

  /** An amount with a fraction of a cent is rounded away on one side only. */
  lemma FractionTipsStatus(amount: real) returns (gross: real, liability: real)
    requires amount > 0.0 && !WholeCents(amount)
    ensures liability > 0.0 && Fixed2(gross) >= Fixed2(amount)
    ensures !Neutral(gross, amount, liability, amount)
  {
    var r := Round2(amount);
    gross := (amount.Floor + 2) as real;
    Round2Whole(amount);
    Round2Near(amount);
    assert WholeCents(gross) by {
      assert gross * 100.0 == ((amount.Floor + 2) * 100) as real;
    }
    Round2Whole(gross);
    assert Fixed2(amount - amount) == 0.0;
    liability := if r < amount then gross - r else gross - amount;
    NetStatus(gross, amount, liability);
    NetStatus(gross, amount - amount, liability + amount);
  }

  /** The amounts for which the report is neutral whatever the books say, as long as the cash
      covers the committed amount, are exactly the whole-cent ones. */
  lemma WholeCentsExactly(amount: real)
    requires amount > 0.0
    ensures WholeCents(amount) <==>
              forall gross, committed, liability ::
                amount <= committed && liability > 0.0 && Fixed2(gross) >= Fixed2(committed)
                ==> Neutral(gross, committed, liability, amount)
  {
    if WholeCents(amount) {
      forall gross, committed, liability | amount <= committed && liability > 0.0
        ensures Neutral(gross, committed, liability, amount)
      {
        NeutralExactly(gross, committed, liability, amount);
      }
    } else {
      var gross, liability := FractionTipsStatus(amount);
    }
  }

  /** The BOB status reported for an entity with these books. */
  ghost function ReportOf(banks: seq<Account>, b: Books, entity: string): Solvency {
    BobStatus(banks, Some(Fixed2(Committed(b.txs, entity))), Liability(b.wallets, entity))
  }

  /** The refund of the full original amount, in terms of the books and the accounts read. The report of
      an entity without wallets never says "covered". */
  lemma FullRefundKeepsStatus(banks: seq<Account>, b: Books, txId: string, wtxId: string, entity: string)
    requires banks != [] && AllReadable(banks) && wtxId != ""
    requires txId in b.txs && IsCommitted(b.txs[txId], entity) && !HasEvidence(b.txs[txId])
    requires b.txs[txId].originalAmount > 0.0 && WholeCents(b.txs[txId].originalAmount)
    requires forall id :: id in b.txs ==> b.txs[id].originalAmount >= 0.0
    requires forall user :: user in b.wallets ==> b.wallets[user] >= 0.0
    ensures var b' := WalletRefund(b, txId, wtxId, b.txs[txId].originalAmount, true);
            var before, after := ReportOf(banks, b, entity), ReportOf(banks, b', entity);
            (before.Covered? || before.NoLiability? <==> after.Covered?)
            <==> entity == WALLET_ENTITY && (Liability(b.wallets, entity) > 0.0 || Fixed2(Gross(banks)) >= Fixed2(Committed(b.txs, entity)))
  {
    var amount := b.txs[txId].originalAmount;
    var b' := WalletRefund(b, txId, wtxId, amount, true);
    FullRefundAmounts(b, txId, wtxId, entity);
    ReportsNeutral(banks, b, b', amount, entity);
  }

  /** Two states of the books between which the amount moved from the committed total to the wallets. */
  lemma ReportsNeutral(banks: seq<Account>, b: Books, b': Books, amount: real, entity: string)
    requires banks != [] && AllReadable(banks)
    requires 0.0 < amount <= Committed(b.txs, entity) && WholeCents(amount) && Liability(b.wallets, entity) >= 0.0
    requires Committed(b'.txs, entity) == Committed(b.txs, entity) - amount
    requires Liability(b'.wallets, entity) == Liability(b.wallets, entity) + if entity == WALLET_ENTITY then amount else 0.0
    ensures var before, after := ReportOf(banks, b, entity), ReportOf(banks, b', entity);
            (before.Covered? || before.NoLiability? <==> after.Covered?)
            <==> entity == WALLET_ENTITY
                 && (Liability(b.wallets, entity) > 0.0 || Fixed2(Gross(banks)) >= Fixed2(Committed(b.txs, entity)))
  {
    ReportWhenAllRead(banks, b, entity);
    ReportWhenAllRead(banks, b', entity);
    NeutralForEntity(Gross(banks), Committed(b.txs, entity), Liability(b.wallets, entity), amount, entity == WALLET_ENTITY);
  }

  /** For an entity with or without wallets. */
  lemma NeutralForEntity(gross: real, committed: real, liability: real, amount: real, wallets: bool)
    requires 0.0 < amount <= committed && WholeCents(amount) && liability >= 0.0 && (!wallets ==> liability == 0.0)
    ensures var before := StatusOf(gross, committed, liability);
            var after := StatusOf(gross, committed - amount, liability + if wallets then amount else 0.0);
            (before.Covered? || before.NoLiability? <==> after.Covered?)
            <==> wallets && (liability > 0.0 || Fixed2(gross) >= Fixed2(committed))
  {
    if wallets {
      NeutralExactly(gross, committed, liability, amount);
    }
  }

  lemma ReportWhenAllRead(banks: seq<Account>, b: Books, entity: string)
    requires banks != [] && AllReadable(banks)
    ensures ReportOf(banks, b, entity) == StatusOf(Gross(banks), Committed(b.txs, entity), Liability(b.wallets, entity))
  {
    ReadCountAll(banks);
  }

  lemma FullRefundAmounts(b: Books, txId: string, wtxId: string, entity: string)
    requires txId in b.txs && IsCommitted(b.txs[txId], entity) && !HasEvidence(b.txs[txId]) && wtxId != ""
    requires forall id :: id in b.txs ==> b.txs[id].originalAmount >= 0.0
    requires forall user :: user in b.wallets ==> b.wallets[user] >= 0.0
    ensures var amount := b.txs[txId].originalAmount;
            var b' := WalletRefund(b, txId, wtxId, amount, true);
            && Committed(b'.txs, entity) == Committed(b.txs, entity) - amount
            && Liability(b'.wallets, entity) ==
                 Liability(b.wallets, entity) + (if entity == WALLET_ENTITY then amount else 0.0)
            && amount <= Committed(b.txs, entity) && Liability(b.wallets, entity) >= 0.0
  {
    var b' := WalletRefund(b, txId, wtxId, b.txs[txId].originalAmount, true);
    WalletRefundEffect(b, txId, wtxId, b.txs[txId].originalAmount, entity);
    assert forall id :: id in b'.txs ==> b'.txs[id].originalAmount >= 0.0;
    SumNonNegative(CommittedAmounts(b'.txs, entity));
    SumNonNegative(b.wallets);
  }
}
