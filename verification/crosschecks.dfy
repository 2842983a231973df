/**
 * How the ledger engine of App.tsx and the per-wallet ledger of
 * components/DebtLedgerModal.tsx move together when one transaction is added
 * to a debt wallet.
 */
module CrossChecks {
  import opened Wrappers
  import opened Seqs
  import opened Types
  import opened Ledger
  import opened DebtLedger

  /** Summing a filter over a log split in two is summing over both parts. */
  lemma SumFilterSplit(a: seq<Transaction>, b: seq<Transaction>, p: Transaction -> bool)
    ensures Sum(Filter(a + b, p), Amount) == Sum(Filter(a, p), Amount) + Sum(Filter(b, p), Amount)
  {
    FilterAppend(a, b, p);
    SumAppend(Filter(a, p), Filter(b, p), Amount);
  }

  /** The log after a one-record posting is the old log plus that record. */
  lemma OneRecordAdded(s: AppState, i: Intent, id: string, now: Stamp, lower: CaseFold)
    requires !BranchOf(i).TransferLegs?
    ensures var r := AddTransaction(s, i, id, now, lower);
      r.transactions == s.transactions + [r.transactions[|s.transactions|]]
  {
    var r := AddTransaction(s, i, id, now, lower);
    assert r.transactions == r.transactions[..|s.transactions|] + [r.transactions[|s.transactions|]];
  }

  /**
   * A single-wallet EXPENSE of `a` on a debt wallet raises both its balance
   * and its borrowed total by `a`.
   */
  lemma ChargeRaisesBalanceAndBorrowed(s: AppState, i: Intent, id: string, now: Stamp, lower: CaseFold, k: int)
    requires 0 <= k < |s.wallets| && IsDebtWallet(s.wallets[k], lower)
    requires i.walletId == s.wallets[k].id && i.kind == Expense
    requires !Truthy(i.toWalletId) || i.categoryId != DebtPaymentCategoryId
    ensures var r := AddTransaction(s, i, id, now, lower);
      && r.wallets[k].balance == s.wallets[k].balance + i.amount
      && LedgerOf(r.wallets[k], r.transactions).totalBorrowed
           == LedgerOf(s.wallets[k], s.transactions).totalBorrowed + i.amount
      && LedgerOf(r.wallets[k], r.transactions).totalPaid
           == LedgerOf(s.wallets[k], s.transactions).totalPaid + (if i.toWalletId == Some(i.walletId) then i.amount else 0)
  {
    var r := AddTransaction(s, i, id, now, lower);
    SingleWalletSignTable(s, i, id, now, lower);
    OneRecordAdded(s, i, id, now, lower);
    var t := r.transactions[|s.transactions|];
    var w := s.wallets[k].id;
    assert r.wallets[k].id == w;
    SumFilterSplit(s.transactions, [t], ChargedTo(w));
    SumFilterSplit(s.transactions, [t], PaidInto(w));
  }

  /**
   * A debt payment of `a` from another wallet into a debt wallet lowers the
   * debt wallet's balance by `a` and raises its paid total by `a`; its
   * borrowed total stays.
   */
  lemma PaymentLowersBalanceRaisesPaid(s: AppState, i: Intent, id: string, now: Stamp, lower: CaseFold, k: int)
    requires 0 <= k < |s.wallets| && s.wallets[k].id != ""
    requires i.kind != Transfer && i.categoryId == DebtPaymentCategoryId
    requires i.toWalletId == Some(s.wallets[k].id) && i.walletId != s.wallets[k].id
    ensures var r := AddTransaction(s, i, id, now, lower);
      && r.wallets[k].balance == s.wallets[k].balance - i.amount
      && LedgerOf(r.wallets[k], r.transactions).totalPaid
           == LedgerOf(s.wallets[k], s.transactions).totalPaid + i.amount
      && LedgerOf(r.wallets[k], r.transactions).totalBorrowed
           == LedgerOf(s.wallets[k], s.transactions).totalBorrowed
  {
    var r := AddTransaction(s, i, id, now, lower);
    DebtPaymentPosting(s, i, id, now, lower);
    OneRecordAdded(s, i, id, now, lower);
    var t := r.transactions[|s.transactions|];
    var w := s.wallets[k].id;
    assert r.wallets[k].id == w;
    SumFilterSplit(s.transactions, [t], ChargedTo(w));
    SumFilterSplit(s.transactions, [t], PaidInto(w));
  }

  /**
   * A transfer from another wallet into a debt wallet raises its paid total
   * by the amount, but also raises its balance: the engine credits a
   * transfer's target whatever its classification.
   */
  lemma TransferRaisesPaidAndBalance(s: AppState, i: Intent, id: string, now: Stamp, lower: CaseFold, k: int)
    requires 0 <= k < |s.wallets| && s.wallets[k].id != ""
    requires i.kind == Transfer && i.toWalletId == Some(s.wallets[k].id) && i.walletId != s.wallets[k].id
    ensures var r := AddTransaction(s, i, id, now, lower);
      && r.wallets[k].balance == s.wallets[k].balance + i.amount
      && LedgerOf(r.wallets[k], r.transactions).totalPaid
           == LedgerOf(s.wallets[k], s.transactions).totalPaid + i.amount
      && LedgerOf(r.wallets[k], r.transactions).totalBorrowed
           == LedgerOf(s.wallets[k], s.transactions).totalBorrowed
  {
    var w := s.wallets[k].id;
    TransferLogTotals(s, i, id, now, lower, w);
    AddTransactionSettles(s, i, id, now, lower);
    assert BranchOf(i) == TransferLegs(w);
  }

  /** Recording a transfer into `w` leaves the charges of `w` alone and adds the amount to its repayments. */
  lemma TransferLogTotals(s: AppState, i: Intent, id: string, now: Stamp, lower: CaseFold, w: string)
    requires w != "" && i.kind == Transfer && i.toWalletId == Some(w) && i.walletId != w
    ensures var log := AddTransaction(s, i, id, now, lower).transactions;
      && Sum(Filter(log, ChargedTo(w)), Amount) == Sum(Filter(s.transactions, ChargedTo(w)), Amount)
      && Sum(Filter(log, PaidInto(w)), Amount) == Sum(Filter(s.transactions, PaidInto(w)), Amount) + i.amount
  {
    AddTransactionLogs(s, i, id, now, lower);
    var legs := Postings(s, i, id, PostingDate(i, now));
    assert BranchOf(i) == TransferLegs(w);
    assert |legs| == 2 && legs[0].walletId == i.walletId && legs[0].toWalletId == Some(w);
    assert legs[1].toWalletId == Some(i.walletId);
    TransferLegsTotals(w, s.transactions, legs);
  }

  /**
   * Of a transfer's two legs into `w`, none is a charge of `w` and only the
   * outgoing one repays it, so appending them raises only the repayments.
   */
  lemma TransferLegsTotals(w: string, log: seq<Transaction>, legs: seq<Transaction>)
    requires |legs| == 2
    requires legs[0].walletId != w && legs[0].toWalletId == Some(w) && legs[0].kind == Expense
    requires legs[1].kind == Income && legs[1].toWalletId != Some(w)
    ensures Sum(Filter(log + legs, ChargedTo(w)), Amount) == Sum(Filter(log, ChargedTo(w)), Amount)
    ensures Sum(Filter(log + legs, PaidInto(w)), Amount) == Sum(Filter(log, PaidInto(w)), Amount) + legs[0].amount
  {
    SumFilterSplit(log, legs, ChargedTo(w));
    SumFilterSplit(log, legs, PaidInto(w));
    assert legs[1..] == [legs[1]];
  }
}
