/**
 * The ledger of one wallet (components/DebtLedgerModal.tsx): every record
 * that names the wallet on either side, newest first, with the total charged
 * to it and the total paid into it.
 */
module DebtLedger {
  import opened Wrappers
  import opened Seqs
  import opened Types
  import opened Chrono

  /** The record names the wallet as its primary or as its second wallet. */
  predicate Touches(t: Transaction, id: string) {
    t.walletId == id || t.toWalletId == Some(id)
  }

  function TouchesWallet(id: string): Transaction -> bool {
    t => Touches(t, id)
  }

  /** A charge: an EXPENSE whose primary wallet is this one. */
  predicate IsCharge(t: Transaction, id: string) {
    t.walletId == id && t.kind == Expense
  }

  function ChargedTo(id: string): Transaction -> bool {
    t => IsCharge(t, id)
  }

  /** A repayment: a record whose second wallet is this one. */
  predicate IsRepayment(t: Transaction, id: string) {
    t.toWalletId == Some(id)
  }

  function PaidInto(id: string): Transaction -> bool {
    t => IsRepayment(t, id)
  }

  /**
   * `ledgerEntries`: exactly the records touching the wallet, rearranged
   * newest first.
   */
  function LedgerEntries(w: Wallet, txs: seq<Transaction>): (r: seq<Transaction>)
    ensures NewestFirst(r)
    ensures multiset(r) == multiset(Filter(txs, TouchesWallet(w.id)))
    ensures forall t | t in r :: t in txs && Touches(t, w.id)
    ensures forall t | t in txs && Touches(t, w.id) :: t in r
  {
    var picked := Filter(txs, TouchesWallet(w.id));
    FilterMembers(txs, TouchesWallet(w.id));
    var r := SortNewestFirst(picked);
    forall t | t in r
      ensures t in txs && Touches(t, w.id)
    {
      assert t in multiset(picked);
    }
    forall t | t in txs && Touches(t, w.id)
      ensures t in r
    {
      assert TouchesWallet(w.id)(t);
      assert t in multiset(picked);
    }
    r
  }

  function TotalBorrowed(w: Wallet, entries: seq<Transaction>): int {
    Sum(Filter(entries, ChargedTo(w.id)), Amount)
  }

  function TotalPaid(w: Wallet, entries: seq<Transaction>): int {
    Sum(Filter(entries, PaidInto(w.id)), Amount)
  }

  /** What the ledger window shows: the entries, the two totals and the outstanding amount. */
  datatype Sheet = Sheet(entries: seq<Transaction>, totalBorrowed: int, totalPaid: int, outstanding: int)

  /**
   * The ledger of a wallet. The totals are the charge and repayment sums over
   * the whole history, whatever its order, and the outstanding amount is the
   * wallet's live balance, not anything derived from the totals.
   */
  function LedgerOf(w: Wallet, txs: seq<Transaction>): (r: Sheet)
    ensures r.entries == LedgerEntries(w, txs)
    ensures r.totalBorrowed == Sum(Filter(txs, ChargedTo(w.id)), Amount)
    ensures r.totalPaid == Sum(Filter(txs, PaidInto(w.id)), Amount)
    ensures r.outstanding == w.balance
  {
    var entries := LedgerEntries(w, txs);
    TotalsOverHistory(w, txs);
    Sheet(entries, TotalBorrowed(w, entries), TotalPaid(w, entries), w.balance)
  }

  /**
   * Summing over the sorted ledger is summing over the unsorted history
   * restricted to charges (respectively repayments): sorting and the
   * touching filter change neither total.
   */
  lemma TotalsOverHistory(w: Wallet, txs: seq<Transaction>)
    ensures TotalBorrowed(w, LedgerEntries(w, txs)) == Sum(Filter(txs, ChargedTo(w.id)), Amount)
    ensures TotalPaid(w, LedgerEntries(w, txs)) == Sum(Filter(txs, PaidInto(w.id)), Amount)
  {
    var picked := Filter(txs, TouchesWallet(w.id));
    var entries := LedgerEntries(w, txs);
    SumFilterMasked(entries, ChargedTo(w.id), Amount);
    SumOfPermutation(entries, picked, Masked(ChargedTo(w.id), Amount));
    SumFilterMasked(picked, ChargedTo(w.id), Amount);
    FilterFilter(txs, ChargedTo(w.id), TouchesWallet(w.id));
    SumFilterMasked(entries, PaidInto(w.id), Amount);
    SumOfPermutation(entries, picked, Masked(PaidInto(w.id), Amount));
    SumFilterMasked(picked, PaidInto(w.id), Amount);
    FilterFilter(txs, PaidInto(w.id), TouchesWallet(w.id));
  }

  /**
   * With non-negative amounts both totals are non-negative and neither
   * exceeds the sum of all entry amounts.
   */
  lemma TotalsBounded(w: Wallet, txs: seq<Transaction>)
    requires forall t | t in txs :: t.amount >= 0
    ensures var s := LedgerOf(w, txs);
      && 0 <= s.totalBorrowed <= Sum(s.entries, Amount)
      && 0 <= s.totalPaid <= Sum(s.entries, Amount)
  {
    var entries := LedgerEntries(w, txs);
    SumFilterBounded(entries, ChargedTo(w.id), Amount);
    SumFilterBounded(entries, PaidInto(w.id), Amount);
  }

  /**
   * Every entry is shown either as a repayment (it pays into the wallet) or
   * as a charge row; a charge row always has the wallet as its primary one.
   */
  lemma EntryDisplay(w: Wallet, txs: seq<Transaction>, t: Transaction)
    requires t in LedgerEntries(w, txs)
    ensures !IsRepayment(t, w.id) ==> t.walletId == w.id
  {
  }
}
