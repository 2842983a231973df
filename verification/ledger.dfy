/**
 * The balance-mutation engine of App.tsx (`addTransaction`): given the
 * current state, a transaction intent and a freshly generated id, it appends
 * one or two records and moves wallet balances. Three branches, tried in
 * order: a two-leg transfer, a debt payment (category "10" with a second
 * wallet) and a single-wallet posting whose sign depends on the wallet's
 * classification.
 */
module Ledger {
  import opened Wrappers
  import opened Strings
  import opened Seqs
  import opened Types

  /** The argument of `addTransaction`: a transaction without its id or its copied names. */
  datatype Intent = Intent(
    amount: int, categoryId: string, walletId: string, toWalletId: Option<string>,
    note: string, kind: CategoryType, date: Stamp, icon: Option<string>)

  datatype Branch = TransferLegs(to: string) | DebtPayment(to: string) | SingleWallet

  /** Which of the three branches an intent takes; the transfer test comes first. */
  function BranchOf(i: Intent): Branch {
    if i.kind == Transfer && Truthy(i.toWalletId) then TransferLegs(i.toWalletId.value)
    else if i.categoryId == DebtPaymentCategoryId && Truthy(i.toWalletId) then DebtPayment(i.toWalletId.value)
    else SingleWallet
  }

  /** The callback of the branch's `wallets.map`: the first matching arm wins. */
  function Settle(w: Wallet, i: Intent, lower: CaseFold): Wallet {
    match BranchOf(i)
    case TransferLegs(to) =>
      if w.id == i.walletId then w.(balance := w.balance - i.amount)
      else if w.id == to then w.(balance := w.balance + i.amount)
      else w
    case DebtPayment(to) =>
      if w.id == i.walletId then w.(balance := w.balance - i.amount)
      else if w.id == to then w.(balance := w.balance - i.amount)
      else w
    case SingleWallet =>
      if w.id != i.walletId then w
      else if i.kind == Expense then
        w.(balance := if IsDebtWallet(w, lower) then w.balance + i.amount else w.balance - i.amount)
      else
        w.(balance := if IsDebtWallet(w, lower) then w.balance - i.amount else w.balance + i.amount)
  }

  function SettleAll(ws: seq<Wallet>, i: Intent, lower: CaseFold): (r: seq<Wallet>)
    ensures |r| == |ws|
    ensures forall k | 0 <= k < |ws| :: r[k] == Settle(ws[k], i, lower)
  {
    if |ws| == 0 then [] else [Settle(ws[0], i, lower)] + SettleAll(ws[1..], i, lower)
  }

  function NameOf(w: Option<Wallet>): Option<string> {
    if w.Some? then Some(w.value.name) else None
  }

  /** The records a branch appends, in order. */
  function Postings(s: AppState, i: Intent, id: string, date: Stamp): seq<Transaction> {
    var source := FindWallet(s.wallets, i.walletId);
    var target := if Truthy(i.toWalletId) then FindWallet(s.wallets, i.toWalletId.value) else None;
    var category := FindCategory(s.categories, i.categoryId);
    var categoryName := if category.Some? then Some(category.value.name) else None;
    match BranchOf(i)
    case TransferLegs(to) =>
      [ Transaction(id, i.amount, TransferCategoryId, i.walletId, Some(to), date, OrElse(i.note, "Chuyển tiền"),
                    Expense, Some("📤"), Some("Chuyển tiền"), NameOf(source), NameOf(target)),
        Transaction(id + "in", i.amount, TransferCategoryId, to, Some(i.walletId), date, OrElse(i.note, "Nhận tiền"),
                    Income, Some("📥"), Some("Chuyển tiền"), NameOf(target), NameOf(source)) ]
    case DebtPayment(to) =>
      [ Transaction(id, i.amount, i.categoryId, i.walletId, i.toWalletId, date, i.note,
                    i.kind, i.icon, categoryName, NameOf(source), NameOf(target)) ]
    case SingleWallet =>
      [ Transaction(id, i.amount, i.categoryId, i.walletId, i.toWalletId, date, i.note,
                    i.kind, i.icon, categoryName, NameOf(source), None) ]
  }

  /** The date a posting carries: the intent's, or the clock's when the intent has none. */
  function PostingDate(i: Intent, now: Stamp): Stamp {
    if i.date.text == "" then now else i.date
  }

  /**
   * `addTransaction` as a state transformer. The log only grows at its end,
   * the wallet list keeps its length and order, only balances move, and only
   * the wallets the intent names move at all.
   */
  function AddTransaction(s: AppState, i: Intent, id: string, now: Stamp, lower: CaseFold): (r: AppState)
    ensures r.categories == s.categories && r.favorites == s.favorites
    ensures r.googleSheetUrl == s.googleSheetUrl && r.settingsPassword == s.settingsPassword
    ensures |r.transactions| == |s.transactions| + (if BranchOf(i).TransferLegs? then 2 else 1)
    ensures r.transactions[..|s.transactions|] == s.transactions
    ensures forall t | t in r.transactions[|s.transactions|..] ::
      t.amount == i.amount && t.date == PostingDate(i, now)
    ensures |r.wallets| == |s.wallets|
    ensures forall k | 0 <= k < |s.wallets| :: r.wallets[k] == s.wallets[k].(balance := r.wallets[k].balance)
    ensures forall k | 0 <= k < |s.wallets| && s.wallets[k].id != i.walletId
      && !(Truthy(i.toWalletId) && s.wallets[k].id == i.toWalletId.value) :: r.wallets[k] == s.wallets[k]
  {
    var added := Postings(s, i, id, PostingDate(i, now));
    var log := s.transactions + added;
    assert log[|s.transactions|..] == added;
    s.(wallets := SettleAll(s.wallets, i, lower), transactions := log)
  }

  /**
   * A TRANSFER naming a second wallet, whatever its category, appends an
   * EXPENSE leg then an INCOME leg with swapped wallets, debits the source
   * and credits the target.
   */
  lemma TransferPosting(s: AppState, i: Intent, id: string, now: Stamp, lower: CaseFold)
    requires i.kind == Transfer && Truthy(i.toWalletId)
    ensures var r := AddTransaction(s, i, id, now, lower);
      var n := |s.transactions|;
      var to := i.toWalletId.value;
      && |r.transactions| == n + 2
      && r.transactions[n].id == id && r.transactions[n + 1].id == id + "in"
      && r.transactions[n].kind == Expense && r.transactions[n + 1].kind == Income
      && r.transactions[n].categoryId == TransferCategoryId && r.transactions[n + 1].categoryId == TransferCategoryId
      && r.transactions[n].walletId == i.walletId && r.transactions[n].toWalletId == Some(to)
      && r.transactions[n + 1].walletId == to && r.transactions[n + 1].toWalletId == Some(i.walletId)
      && r.transactions[n].amount == i.amount && r.transactions[n + 1].amount == i.amount
      && r.transactions[n].date == r.transactions[n + 1].date
      && forall k | 0 <= k < |s.wallets| ::
           r.wallets[k].balance == s.wallets[k].balance
             + (if s.wallets[k].id == i.walletId then -i.amount
                else if s.wallets[k].id == to then i.amount else 0)
  {
  }

  /** A transfer to the paying wallet itself debits it once and never credits it. */
  lemma SelfTransferOnlyDebits(s: AppState, i: Intent, id: string, now: Stamp, lower: CaseFold)
    requires i.kind == Transfer && i.toWalletId == Some(i.walletId) && i.walletId != ""
    ensures var r := AddTransaction(s, i, id, now, lower);
      forall k | 0 <= k < |s.wallets| && s.wallets[k].id == i.walletId ::
        r.wallets[k].balance == s.wallets[k].balance - i.amount
  {
  }

  /**
   * A non-transfer with category "10" and a second wallet appends one record
   * that keeps the caller's type and second wallet, and debits both wallets,
   * whatever their classification; a payment into the paying wallet itself
   * debits it once.
   */
  lemma DebtPaymentPosting(s: AppState, i: Intent, id: string, now: Stamp, lower: CaseFold)
    requires i.kind != Transfer && i.categoryId == DebtPaymentCategoryId && Truthy(i.toWalletId)
    ensures var r := AddTransaction(s, i, id, now, lower);
      var n := |s.transactions|;
      && |r.transactions| == n + 1
      && r.transactions[n].id == id && r.transactions[n].kind == i.kind
      && r.transactions[n].walletId == i.walletId && r.transactions[n].toWalletId == i.toWalletId
      && r.transactions[n].categoryId == DebtPaymentCategoryId
      && forall k | 0 <= k < |s.wallets| ::
           r.wallets[k].balance == s.wallets[k].balance
             - (if s.wallets[k].id == i.walletId || s.wallets[k].id == i.toWalletId.value then i.amount else 0)
  {
  }

  /**
   * The sign table of the single-wallet branch: on an asset wallet EXPENSE
   * subtracts and anything else adds; on a debt wallet EXPENSE adds and
   * anything else subtracts. "Anything else" includes a TRANSFER without a
   * second wallet.
   */
  lemma SingleWalletSignTable(s: AppState, i: Intent, id: string, now: Stamp, lower: CaseFold)
    requires !(Truthy(i.toWalletId) && (i.kind == Transfer || i.categoryId == DebtPaymentCategoryId))
    ensures var r := AddTransaction(s, i, id, now, lower);
      var n := |s.transactions|;
      && |r.transactions| == n + 1
      && r.transactions[n].id == id && r.transactions[n].kind == i.kind && r.transactions[n].walletId == i.walletId
      && forall k | 0 <= k < |s.wallets| && s.wallets[k].id == i.walletId ::
           var debt := IsDebtWallet(s.wallets[k], lower);
           var b := s.wallets[k].balance;
           && (!debt && i.kind == Expense ==> r.wallets[k].balance == b - i.amount)
           && (!debt && i.kind != Expense ==> r.wallets[k].balance == b + i.amount)
           && (debt && i.kind == Expense ==> r.wallets[k].balance == b + i.amount)
           && (debt && i.kind != Expense ==> r.wallets[k].balance == b - i.amount)
  {
  }

  /** An intent naming only wallets that do not exist still appends its record but moves no balance. */
  lemma UnknownWalletMovesNothing(s: AppState, i: Intent, id: string, now: Stamp, lower: CaseFold)
    requires forall k | 0 <= k < |s.wallets| :: s.wallets[k].id != i.walletId
    requires BranchOf(i).SingleWallet? || forall k | 0 <= k < |s.wallets| :: s.wallets[k].id != i.toWalletId.value
    ensures var r := AddTransaction(s, i, id, now, lower);
      r.wallets == s.wallets && |r.transactions| > |s.transactions|
  {
    var r := AddTransaction(s, i, id, now, lower);
    assert forall k | 0 <= k < |s.wallets| :: r.wallets[k] == s.wallets[k];
  }

  /** Some wallet carries the id. */
  predicate HasWallet(ws: seq<Wallet>, id: string) {
    exists k | 0 <= k < |ws| :: ws[k].id == id
  }

  lemma HasWalletStep(ws: seq<Wallet>, id: string)
    requires |ws| > 0 && UniqueWalletIds(ws)
    ensures UniqueWalletIds(ws[1..])
    ensures HasWallet(ws, id) <==> ws[0].id == id || HasWallet(ws[1..], id)
    ensures ws[0].id == id ==> !HasWallet(ws[1..], id)
  {
    if HasWallet(ws, id) && ws[0].id != id {
      var k :| 0 <= k < |ws| && ws[k].id == id;
      assert ws[1..][k - 1].id == id;
    }
    if HasWallet(ws[1..], id) {
      var k :| 0 <= k < |ws[1..]| && ws[1..][k].id == id;
      assert ws[k + 1].id == id;
    }
  }

  /**
   * Over a two-wallet branch with distinct wallets and distinct ids, the sum
   * of balances goes down by the amount when the paying wallet exists, and up
   * (transfer) or down (debt payment) by the amount when the second one does.
   */
  lemma {:induction false} SettleAllTotal(ws: seq<Wallet>, i: Intent, lower: CaseFold)
    requires !BranchOf(i).SingleWallet? && BranchOf(i).to != i.walletId
    requires UniqueWalletIds(ws)
    ensures Sum(SettleAll(ws, i, lower), Balance)
      == Sum(ws, Balance)
         - (if HasWallet(ws, i.walletId) then i.amount else 0)
         + (if !HasWallet(ws, BranchOf(i).to) then 0
            else if BranchOf(i).TransferLegs? then i.amount else -i.amount)
  {
    if |ws| > 0 {
      HasWalletStep(ws, i.walletId);
      HasWalletStep(ws, BranchOf(i).to);
      SettleAllTotal(ws[1..], i, lower);
      assert SettleAll(ws, i, lower)[1..] == SettleAll(ws[1..], i, lower);
    }
  }

  /** Recording a transaction appends the branch's postings to the log. */
  lemma AddTransactionLogs(s: AppState, i: Intent, id: string, now: Stamp, lower: CaseFold)
    ensures AddTransaction(s, i, id, now, lower).transactions == s.transactions + Postings(s, i, id, PostingDate(i, now))
  {
  }

  /** Recording a transaction settles every wallet against the intent. */
  lemma AddTransactionSettles(s: AppState, i: Intent, id: string, now: Stamp, lower: CaseFold)
    ensures AddTransaction(s, i, id, now, lower).wallets == SettleAll(s.wallets, i, lower)
  {
  }

  /** A transfer between two distinct existing wallets (distinct ids) leaves the sum of all balances unchanged. */
  lemma TransferConservesTotal(s: AppState, i: Intent, id: string, now: Stamp, lower: CaseFold)
    requires i.kind == Transfer && Truthy(i.toWalletId) && i.toWalletId.value != i.walletId
    requires UniqueWalletIds(s.wallets)
    requires HasWallet(s.wallets, i.walletId)
    requires HasWallet(s.wallets, i.toWalletId.value)
    ensures Sum(AddTransaction(s, i, id, now, lower).wallets, Balance) == Sum(s.wallets, Balance)
  {
    AddTransactionSettles(s, i, id, now, lower);
    assert BranchOf(i) == TransferLegs(i.toWalletId.value);
    SettleAllTotal(s.wallets, i, lower);
  }

  /** A debt payment between two distinct existing wallets (distinct ids) lowers the sum of all balances by twice the amount. */
  lemma DebtPaymentLowersTotalTwice(s: AppState, i: Intent, id: string, now: Stamp, lower: CaseFold)
    requires i.kind != Transfer && i.categoryId == DebtPaymentCategoryId && Truthy(i.toWalletId)
    requires i.toWalletId.value != i.walletId
    requires UniqueWalletIds(s.wallets)
    requires HasWallet(s.wallets, i.walletId)
    requires HasWallet(s.wallets, i.toWalletId.value)
    ensures Sum(AddTransaction(s, i, id, now, lower).wallets, Balance) == Sum(s.wallets, Balance) - 2 * i.amount
  {
    AddTransactionSettles(s, i, id, now, lower);
    assert BranchOf(i) == DebtPayment(i.toWalletId.value);
    SettleAllTotal(s.wallets, i, lower);
  }
}
