/**
 * The entry form of components/TransactionForm.tsx: which intents it hands
 * to the ledger engine, the quick-amount buttons, the category default on a
 * type switch and the one-tap favorite entries.
 */
module TransactionForm {
  import opened Wrappers
  import opened Strings
  import opened Types
  import opened Ledger
  import opened Utils

  /** The form's state: the grouped amount text and the current selections. */
  datatype Form = Form(
    displayAmount: string, kind: CategoryType, categoryId: string,
    walletId: string, toWalletId: string, note: string)

  /** The values of the quick-amount buttons. */
  const QuickAmounts: seq<int> := [10000, 20000, 50000, 100000, 200000, 500000]

  function NumAmount(f: Form): int {
    ParseInputNumber(f.displayAmount)
  }

  /**
   * The overdraft guard: an outgoing entry (EXPENSE or TRANSFER) from an
   * existing asset wallet whose balance is below the amount. Debt wallets
   * and unknown wallets are never insufficient.
   */
  predicate IsInsufficient(f: Form, wallets: seq<Wallet>, lower: CaseFold) {
    var selected := FindWallet(wallets, f.walletId);
    && (f.kind == Expense || f.kind == Transfer)
    && selected.Some?
    && !IsDebtWallet(selected.value, lower)
    && selected.value.balance < NumAmount(f)
  }

  /** The submit button is greyed out on insufficiency or a non-positive amount. */
  predicate SubmitDisabled(f: Form, wallets: seq<Wallet>, lower: CaseFold) {
    IsInsufficient(f, wallets, lower) || NumAmount(f) <= 0
  }

  /**
   * `handleSubmit`: nothing for a non-positive amount or an overdraft;
   * otherwise the intent, with the transfer fields only on a TRANSFER and the
   * note falling back to the category's name.
   */
  function HandleSubmit(f: Form, categories: seq<Category>, wallets: seq<Wallet>, lower: CaseFold, now: Stamp): (r: Option<Intent>)
    ensures r.None? <==> NumAmount(f) <= 0 || IsInsufficient(f, wallets, lower)
    ensures r.Some? ==>
      && r.value.amount == NumAmount(f) > 0
      && r.value.walletId == f.walletId && r.value.kind == f.kind && r.value.date == now
    ensures r.Some? && f.kind == Transfer ==>
      && r.value.categoryId == TransferCategoryId
      && r.value.toWalletId == Some(f.toWalletId)
      && r.value.icon == Some("🔄")
    ensures r.Some? && f.kind != Transfer ==>
      && r.value.categoryId == f.categoryId
      && r.value.toWalletId.None?
      && r.value.icon == (match FindCategory(categories, f.categoryId) case Some(c) => Some(c.icon) case None => None)
    ensures r.Some? && Trim(f.note) != "" ==> r.value.note == Trim(f.note)
    ensures r.Some? && Trim(f.note) == "" ==>
      r.value.note == (match FindCategory(categories, f.categoryId) case Some(c) => c.name case None => "")
  {
    if NumAmount(f) <= 0 || IsInsufficient(f, wallets, lower) then None
    else
      var selected := FindCategory(categories, f.categoryId);
      var fallback := if selected.Some? then selected.value.name else "";
      var icon := if f.kind == Transfer then Some("🔄") else if selected.Some? then Some(selected.value.icon) else None;
      Some(Intent(
        NumAmount(f),
        if f.kind == Transfer then TransferCategoryId else f.categoryId,
        f.walletId,
        if f.kind == Transfer then Some(f.toWalletId) else None,
        OrElse(Trim(f.note), fallback),
        f.kind, now, icon))
  }

  /** The button is disabled exactly when pressing it would emit nothing. */
  lemma DisabledIffNoIntent(f: Form, categories: seq<Category>, wallets: seq<Wallet>, lower: CaseFold, now: Stamp)
    ensures SubmitDisabled(f, wallets, lower) <==> HandleSubmit(f, categories, wallets, lower, now).None?
  {
  }

  /**
   * What the form emits reaches the engine's branches this way: a TRANSFER
   * with a destination takes the two-leg branch, and everything else (even
   * with category "10") takes the single-wallet branch, because the form
   * never attaches a second wallet outside a transfer.
   */
  lemma SubmittedBranch(f: Form, categories: seq<Category>, wallets: seq<Wallet>, lower: CaseFold, now: Stamp)
    requires HandleSubmit(f, categories, wallets, lower, now).Some?
    ensures var i := HandleSubmit(f, categories, wallets, lower, now).value;
      && (f.kind == Transfer && f.toWalletId != "" ==> BranchOf(i) == TransferLegs(f.toWalletId))
      && (f.kind != Transfer || f.toWalletId == "" ==> BranchOf(i) == SingleWallet)
  {
  }

  /**
   * An accepted outgoing entry from an existing asset wallet never leaves that
   * wallet negative: an EXPENSE, or a TRANSFER with a destination, debits it
   * by the amount, which the guard keeps within the balance; a TRANSFER
   * without a destination even credits it.
   */
  lemma SubmitKeepsAssetSolvent(
    s: AppState, f: Form, k: int, id: string, now: Stamp, lower: CaseFold)
    requires UniqueWalletIds(s.wallets) && 0 <= k < |s.wallets|
    requires s.wallets[k].id == f.walletId && !IsDebtWallet(s.wallets[k], lower)
    requires f.kind != Income
    requires HandleSubmit(f, s.categories, s.wallets, lower, now).Some?
    ensures var i := HandleSubmit(f, s.categories, s.wallets, lower, now).value;
      var r := AddTransaction(s, i, id, now, lower);
      && r.wallets[k].balance >= 0
      && (f.kind == Expense || f.toWalletId != "" ==> r.wallets[k].balance == s.wallets[k].balance - i.amount)
  {
    var i := HandleSubmit(f, s.categories, s.wallets, lower, now).value;
    FindUniqueWallet(s.wallets, k);
    AddTransactionSettles(s, i, id, now, lower);
    SettleAssetSource(s.wallets[k], i, lower);
  }

  /** The source asset of an expense or transfer is debited, unless a transfer without destination falls to the credit arm. */
  lemma SettleAssetSource(w: Wallet, i: Intent, lower: CaseFold)
    requires w.id == i.walletId && !IsDebtWallet(w, lower) && i.kind != Income
    requires i.kind == Expense ==> i.toWalletId.None?
    ensures Settle(w, i, lower).balance
      == if i.kind == Expense || Truthy(i.toWalletId) then w.balance - i.amount else w.balance + i.amount
  {
  }

  /**
   * The quick-amount button adds its value to what the field currently reads
   * and regroups the sum. The field only ever holds formatted text.
   */
  function QuickAmount(display: string, amount: int): string {
    FormatInputNumber(IntToString(ParseInputNumber(display) + amount))
  }

  /** Pressing a quick-amount button on a formatted field makes it read the old number plus the button's value. */
  lemma QuickAmountAdds(raw: string, amount: int)
    requires amount in QuickAmounts
    ensures amount > 0
    ensures QuickAmount(FormatInputNumber(raw), amount) == FormatInputNumber(NatToString(DigitsValue(KeepDigits(raw)) + amount))
    ensures ParseInputNumber(QuickAmount(FormatInputNumber(raw), amount)) == DigitsValue(KeepDigits(raw)) + amount
  {
    QuickAmountPositive(amount);
    var m := QuickAmountShows(raw, amount);
    ParseFormatNat(m);
  }

  /** The field shows the grouping of the sum. */
  lemma QuickAmountShows(raw: string, amount: int) returns (m: nat)
    requires amount in QuickAmounts
    ensures m == DigitsValue(KeepDigits(raw)) + amount
    ensures QuickAmount(FormatInputNumber(raw), amount) == FormatInputNumber(NatToString(m))
  {
    QuickAmountPositive(amount);
    ParseFormatRoundTrip(raw);
    m := DigitsValue(KeepDigits(raw)) + amount;
    QuickAmountText(FormatInputNumber(raw), amount, m);
  }

  lemma QuickAmountText(shown: string, amount: int, m: nat)
    requires ParseInputNumber(shown) + amount == m
    ensures QuickAmount(shown, amount) == FormatInputNumber(NatToString(m))
  {
  }

  lemma QuickAmountPositive(amount: int)
    requires amount in QuickAmounts
    ensures amount > 0
  {
  }

  /** The first category of the given type, in list order. */
  function FirstOfKind(categories: seq<Category>, kind: CategoryType): (r: Option<Category>)
    ensures r.None? <==> forall k | 0 <= k < |categories| :: categories[k].kind != kind
    ensures r.Some? ==> exists k | 0 <= k < |categories| ::
      && categories[k] == r.value && r.value.kind == kind
      && forall j | 0 <= j < k :: categories[j].kind != kind
  {
    if |categories| == 0 then None
    else if categories[0].kind == kind then Some(categories[0])
    else
      var r := FirstOfKind(categories[1..], kind);
      assert forall k | 1 <= k < |categories| :: categories[k] == categories[1..][k - 1];
      r
  }

  /**
   * The category effect run on a type switch: TRANSFER selects "12"; another
   * type selects the first category of that type, and keeps the current
   * selection when there is none.
   */
  function CategoryOnTypeChange(current: string, kind: CategoryType, categories: seq<Category>): (r: string)
    ensures kind == Transfer ==> r == TransferCategoryId
    ensures kind != Transfer && (forall k | 0 <= k < |categories| :: categories[k].kind != kind) ==> r == current
    ensures kind != Transfer && r != current ==>
      exists k | 0 <= k < |categories| :: categories[k].kind == kind && categories[k].id == r
  {
    if kind == Transfer then TransferCategoryId
    else
      match FirstOfKind(categories, kind)
      case Some(c) => c.id
      case None => current
  }

  /** After a switch to a non-transfer type that has categories, the selected category is of that type. */
  lemma TypeSwitchSelectsMatchingCategory(current: string, kind: CategoryType, categories: seq<Category>)
    requires kind != Transfer
    requires exists k | 0 <= k < |categories| :: categories[k].kind == kind
    ensures exists k | 0 <= k < |categories| ::
      && categories[k].kind == kind && categories[k].id == CategoryOnTypeChange(current, kind, categories)
      && forall j | 0 <= j < k :: categories[j].kind != kind
  {
  }

  /** The two initial wallet selections: the first wallet, and the second when it has a non-empty id. */
  function InitialSelection(wallets: seq<Wallet>): (r: (string, string))
    requires |wallets| > 0
    ensures r.0 == wallets[0].id
    ensures |wallets| == 1 ==> r.1 == r.0
    ensures UniqueWalletIds(wallets) && |wallets| > 1 && wallets[1].id != "" ==> r.1 != r.0
  {
    (wallets[0].id, if |wallets| > 1 then OrElse(wallets[1].id, wallets[0].id) else wallets[0].id)
  }

  /**
   * A favorite tapped in the quick-entry grid: an EXPENSE of its price on the
   * wallet of the selector, or on the favorite's own wallet when the selector
   * reads "default".
   */
  function QuickAddIntent(fav: FavoriteItem, selector: string, now: Stamp): Intent {
    Intent(
      fav.price, fav.categoryId,
      if selector == "default" then fav.defaultWalletId else selector,
      None, fav.shopName + ": " + fav.name, Expense, now, Some(fav.icon))
  }

  /**
   * A quick-add goes through no overdraft guard: on an asset wallet it
   * subtracts the price whatever the balance, so it can drive the wallet
   * negative; on a debt wallet it adds the price.
   */
  lemma QuickAddUnchecked(s: AppState, fav: FavoriteItem, selector: string, k: int, id: string, now: Stamp, lower: CaseFold)
    requires UniqueWalletIds(s.wallets) && 0 <= k < |s.wallets|
    requires s.wallets[k].id == (if selector == "default" then fav.defaultWalletId else selector)
    ensures var r := AddTransaction(s, QuickAddIntent(fav, selector, now), id, now, lower);
      && |r.transactions| == |s.transactions| + 1
      && r.transactions[|s.transactions|].note == fav.shopName + ": " + fav.name
      && r.transactions[|s.transactions|].kind == Expense
      && r.wallets[k].balance == s.wallets[k].balance + (if IsDebtWallet(s.wallets[k], lower) then fav.price else -fav.price)
  {
    var i := QuickAddIntent(fav, selector, now);
    assert BranchOf(i) == SingleWallet;
    AddTransactionSettles(s, i, id, now, lower);
  }
}
