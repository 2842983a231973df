/**
 * The debt repayment dialog of components/PaymentModal.tsx: the amount field
 * with its own copy of the grouping helpers, the source-wallet choice, the
 * overdraft guard and the debt-payment intent App.tsx builds from its answer.
 */
module PaymentModal {
  import opened Wrappers
  import opened Strings
  import opened Seqs
  import opened Types
  import opened Ledger
  import opened Utils

  /** The dialog's private `formatNumber`. */
  function FormatNumber(val: string): string {
    if val == "" then "" else Group(KeepDigits(val))
  }

  /** The dialog's private `parseNumber`. */
  function ParseNumber(val: string): int {
    match ParseFloat(StripDots(val))
    case None => 0
    case Some(v) => v
  }

  /** The private copies compute exactly what the shared helpers compute, on every text. */
  lemma CopiesAgree(val: string)
    ensures FormatNumber(val) == FormatInputNumber(val)
    ensures ParseNumber(val) == ParseInputNumber(val)
  {
  }

  /** The amount the dialog opens with: the size of the debt, grouped. */
  function InitialAmountText(debt: Wallet): string {
    FormatNumber(IntToString(if debt.balance < 0 then -debt.balance else debt.balance))
  }

  /** The opening amount reads back as the absolute value of the debt's balance. */
  lemma InitialAmountReadsDebt(debt: Wallet)
    ensures ParseNumber(InitialAmountText(debt)) == (if debt.balance < 0 then -debt.balance else debt.balance)
  {
    var size: nat := if debt.balance < 0 then -debt.balance else debt.balance;
    assert IntToString(size) == NatToString(size);
    CopiesAgree(NatToString(size));
    CopiesAgree(InitialAmountText(debt));
    ParseFormatNat(size);
  }

  /** The initially chosen source: the first wallet of the whole list. */
  function InitialSourceId(wallets: seq<Wallet>): string
    requires |wallets| > 0
  {
    wallets[0].id
  }

  function OtherThan(id: string): Wallet -> bool {
    (w: Wallet) => w.id != id
  }

  /** The sources offered as choices: every wallet except the debt itself, in list order. */
  function OtherWallets(debt: Wallet, wallets: seq<Wallet>): (r: seq<Wallet>)
    ensures forall w | w in r :: w in wallets && w.id != debt.id
    ensures forall w | w in wallets && w.id != debt.id :: w in r
    ensures IsSubsequence(r, wallets)
  {
    FilterMembers(wallets, OtherThan(debt.id));
    FilterIsSubsequence(wallets, OtherThan(debt.id));
    Filter(wallets, OtherThan(debt.id))
  }

  /**
   * The initial source ignores the offered list: when the debt wallet comes
   * first, it is the initial source although it is not offered.
   */
  lemma InitialSourceMayBeTheDebt(debt: Wallet, wallets: seq<Wallet>)
    requires |wallets| > 0 && wallets[0] == debt
    ensures InitialSourceId(wallets) == debt.id
    ensures forall w | w in OtherWallets(debt, wallets) :: w.id != InitialSourceId(wallets)
  {
  }

  /**
   * The overdraft guard: the chosen source exists and holds less than the
   * amount. Unlike the entry form, a debt-classified source is not exempt.
   */
  predicate IsInsufficient(sourceId: string, display: string, wallets: seq<Wallet>) {
    var source := FindWallet(wallets, sourceId);
    source.Some? && source.value.balance < ParseNumber(display)
  }

  /** The submit button is greyed out on insufficiency only. */
  predicate SubmitDisabled(sourceId: string, display: string, wallets: seq<Wallet>) {
    IsInsufficient(sourceId, display, wallets)
  }

  /** `handleSubmit`: the source and amount handed to `onPay`, if any. */
  function HandleSubmit(sourceId: string, display: string, wallets: seq<Wallet>): (r: Option<(string, int)>)
    ensures r.Some? <==> ParseNumber(display) > 0 && !IsInsufficient(sourceId, display, wallets)
    ensures r.Some? ==> r.value.0 == sourceId && r.value.1 == ParseNumber(display)
    ensures r.Some? && FindWallet(wallets, sourceId).Some? ==> FindWallet(wallets, sourceId).value.balance >= r.value.1
  {
    if ParseNumber(display) <= 0 || IsInsufficient(sourceId, display, wallets) then None
    else Some((sourceId, ParseNumber(display)))
  }

  /**
   * A zero amount over solvent wallets leaves the button enabled, and
   * pressing it still calls nothing: the zero check lives only in the handler.
   */
  lemma ZeroAmountEnabledButIgnored(sourceId: string, display: string, wallets: seq<Wallet>)
    requires ParseNumber(display) == 0
    requires forall k | 0 <= k < |wallets| :: wallets[k].balance >= 0
    ensures !SubmitDisabled(sourceId, display, wallets)
    ensures HandleSubmit(sourceId, display, wallets).None?
  {
  }

  /** The intent App.tsx builds from `onPay`: a category "10" EXPENSE from the source into the debt. */
  function PaymentIntent(debt: Wallet, sourceId: string, amount: int, now: Stamp): Intent {
    Intent(amount, DebtPaymentCategoryId, sourceId, Some(debt.id), "Trả nợ " + debt.name, Expense, now, Some("💸"))
  }

  /**
   * A repayment accepted by the dialog, from a source other than the debt,
   * lowers both the source and the debt wallet by the amount, and the source
   * ends non-negative.
   */
  lemma RepaymentSettles(
    s: AppState, debt: Wallet, sourceId: string, display: string, j: int, k: int,
    id: string, now: Stamp, lower: CaseFold)
    requires UniqueWalletIds(s.wallets) && 0 <= j < |s.wallets| && 0 <= k < |s.wallets|
    requires s.wallets[j].id == sourceId && s.wallets[k].id == debt.id && debt.id != "" && j != k
    requires HandleSubmit(sourceId, display, s.wallets).Some?
    ensures var amount := HandleSubmit(sourceId, display, s.wallets).value.1;
      var r := AddTransaction(s, PaymentIntent(debt, sourceId, amount, now), id, now, lower);
      && r.wallets[j].balance == s.wallets[j].balance - amount >= 0
      && r.wallets[k].balance == s.wallets[k].balance - amount
      && r.transactions[|s.transactions|].toWalletId == Some(debt.id)
  {
    var amount := HandleSubmit(sourceId, display, s.wallets).value.1;
    var i := PaymentIntent(debt, sourceId, amount, now);
    FindUniqueWallet(s.wallets, j);
    DebtPaymentPosting(s, i, id, now, lower);
  }

  /**
   * Paying a debt from itself (possible through the initial choice) passes
   * the guard whenever the debt's balance covers the amount, and then debits
   * it once.
   */
  lemma SelfRepaymentDebitsOnce(s: AppState, debt: Wallet, display: string, k: int, id: string, now: Stamp, lower: CaseFold)
    requires UniqueWalletIds(s.wallets) && 0 <= k < |s.wallets| && s.wallets[k].id == debt.id && debt.id != ""
    requires HandleSubmit(debt.id, display, s.wallets).Some?
    ensures var amount := HandleSubmit(debt.id, display, s.wallets).value.1;
      AddTransaction(s, PaymentIntent(debt, debt.id, amount, now), id, now, lower).wallets[k].balance
        == s.wallets[k].balance - amount
  {
    var amount := HandleSubmit(debt.id, display, s.wallets).value.1;
    DebtPaymentPosting(s, PaymentIntent(debt, debt.id, amount, now), id, now, lower);
  }
}
