/**
 * The wallet screen of components/WalletManager.tsx and App.tsx's handler
 * behind it: the add form, the id prefix chosen by the debt switch, and the
 * debt label of each listed wallet.
 */
module WalletManager {
  import opened Wrappers
  import opened Strings
  import opened Types
  import opened Utils

  /** The add form's fields; `isDebt` is the form's debt switch. */
  datatype AddForm = AddForm(name: string, balanceText: string, icon: string, isDebt: bool)

  /** A wallet as the form hands it over, before it receives an id. */
  datatype Draft = Draft(name: string, balance: int, icon: string, color: string)

  /** `handleSubmit`: nothing for an empty name; the colour follows the debt switch, not the classifier. */
  function HandleSubmit(f: AddForm): (r: Option<(Draft, bool)>)
    ensures r.None? <==> f.name == ""
    ensures r.Some? ==> r.value.0.name == f.name && r.value.0.icon == f.icon && r.value.1 == f.isDebt
    ensures r.Some? ==> r.value.0.balance == ParseInputNumber(f.balanceText)
    ensures r.Some? ==> (r.value.0.color == "#f43f5e" <==> f.isDebt)
    ensures r.Some? ==> (r.value.0.color == "#6366f1" <==> !f.isDebt)
  {
    if f.name == "" then None
    else Some((Draft(f.name, ParseInputNumber(f.balanceText), f.icon, if f.isDebt then "#f43f5e" else "#6366f1"), f.isDebt))
  }

  /**
   * The balance field only ever holds grouped digits, so a new wallet starts
   * at the number typed, never below zero, and at zero for an empty field.
   */
  lemma NewBalanceIsTyped(f: AddForm, typed: string)
    requires f.name != "" && f.balanceText == FormatInputNumber(typed)
    ensures HandleSubmit(f).value.0.balance == DigitsValue(KeepDigits(typed)) >= 0
    ensures typed == "" ==> HandleSubmit(f).value.0.balance == 0
  {
    ParseFormatRoundTrip(typed);
  }

  /** The id prefix App.tsx gives a new wallet. */
  function IdPrefix(isDebt: bool): string {
    if isDebt then "w-debt-" else "w-"
  }

  /** App.tsx's `onAdd`: the draft is appended with the prefixed clock reading as its id. */
  function AddWallet(wallets: seq<Wallet>, d: Draft, isDebt: bool, now: nat): (r: seq<Wallet>)
    ensures |r| == |wallets| + 1 && r[..|wallets|] == wallets
    ensures r[|wallets|].id == IdPrefix(isDebt) + NatToString(now)
    ensures r[|wallets|].balance == d.balance && r[|wallets|].name == d.name && r[|wallets|].color == d.color
    ensures r[|wallets|].icon == d.icon
  {
    wallets + [Wallet(IdPrefix(isDebt) + NatToString(now), d.name, d.balance, d.icon, d.color)]
  }

  /**
   * The classification of the new wallet: one added with the debt switch on is
   * always a debt wallet; one added with it off is a debt wallet exactly when
   * its folded name contains "nợ", since "w-" and digits never spell "debt".
   */
  lemma NewWalletClassification(wallets: seq<Wallet>, d: Draft, isDebt: bool, now: nat, lower: CaseFold)
    ensures var w := AddWallet(wallets, d, isDebt, now)[|wallets|];
      && (isDebt ==> IsDebtWallet(w, lower))
      && (!isDebt ==> (IsDebtWallet(w, lower) <==> Contains(lower(d.name), "nợ")))
  {
    var digits := NatToString(now);
    if isDebt {
      ContainsPrefix("debt-" + digits, "debt", "-" + digits);
      ContainsAfterPrefix("w-", "debt-" + digits, "debt");
      assert "w-" + ("debt-" + digits) == IdPrefix(true) + digits;
    } else if Contains("w-" + digits, "debt") {
      ContainsCharacters("w-" + digits, "debt", 'd');
    }
  }

  /**
   * The switch and the classifier can disagree: an asset-switch wallet whose
   * name folds to something containing "nợ" is a debt wallet with the asset
   * colour.
   */
  lemma AssetColourOnDebtWallet(f: AddForm, wallets: seq<Wallet>, now: nat, lower: CaseFold)
    requires !f.isDebt && f.name != "" && Contains(lower(f.name), "nợ")
    ensures var w := AddWallet(wallets, HandleSubmit(f).value.0, false, now)[|wallets|];
      IsDebtWallet(w, lower) && w.color == "#6366f1"
  {
    NewWalletClassification(wallets, HandleSubmit(f).value.0, false, now, lower);
  }

  /** The caption of a listed wallet. */
  function Caption(w: Wallet, lower: CaseFold): string {
    if Contains(w.id, "debt") || Contains(lower(w.name), "nợ") then "Khoản nợ" else "Tài sản"
  }

  /** The caption reads "Khoản nợ" exactly for the wallets the ledger engine treats as debt. */
  lemma CaptionFollowsClassifier(w: Wallet, lower: CaseFold)
    ensures Caption(w, lower) == "Khoản nợ" <==> IsDebtWallet(w, lower)
  {
  }
}
