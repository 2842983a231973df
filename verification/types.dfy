/**
 * The records of the finance tracker: wallets, categories, transactions,
 * quick-entry favorites and the whole application state, together with the
 * wallet classifier every balance-sign decision goes through.
 */
module Types {
  import opened Wrappers
  import opened Strings

  datatype CategoryType = Expense | Income | Transfer

  /**
   * A transaction date: the ISO text stored in the record and the instant
   * `new Date(text).getTime()` reads from it, in milliseconds.
   */
  datatype Stamp = Stamp(millis: int, text: string)

  /** A wallet; its balance is a signed integer amount of money. */
  datatype Wallet = Wallet(id: string, name: string, balance: int, icon: string, color: string)

  /** A category; the budget is optional (the declaring file still carries merge-conflict markers around it). */
  datatype Category = Category(id: string, name: string, icon: string, kind: CategoryType, color: string, budget: Option<int>)

  /** A quick-entry template. */
  datatype FavoriteItem = FavoriteItem(
    id: string, name: string, price: int, categoryId: string, icon: string, shopName: string, defaultWalletId: string)

  /**
   * A ledger record. `walletId` is the wallet primarily affected, `toWalletId`
   * the second one of a transfer or a debt payment; the three names are
   * copies taken when the record is made.
   */
  datatype Transaction = Transaction(
    id: string, amount: int, categoryId: string, walletId: string, toWalletId: Option<string>,
    date: Stamp, note: string, kind: CategoryType, icon: Option<string>,
    categoryName: Option<string>, walletName: Option<string>, toWalletName: Option<string>)

  datatype AppState = AppState(
    wallets: seq<Wallet>, transactions: seq<Transaction>, categories: seq<Category>,
    favorites: seq<FavoriteItem>, googleSheetUrl: Option<string>, settingsPassword: Option<string>)

  /** The category every transfer record carries, and the only one the category screen refuses to delete. */
  const TransferCategoryId: string := "12"

  /** The category that, together with a second wallet, makes a transaction a debt payment. */
  const DebtPaymentCategoryId: string := "10"

  /** JavaScript truthiness of an optional string: present and not empty. */
  predicate Truthy(o: Option<string>) {
    o.Some? && o.value != ""
  }

  /** `a || b` on strings: the fallback replaces an empty string. */
  function OrElse(a: string, b: string): string {
    if a == "" then b else a
  }

  /** Case folding (`String.prototype.toLowerCase`), left uninterpreted. */
  type CaseFold = string -> string

  /**
   * A wallet is a debt wallet when its id contains "debt" or its lower-cased
   * name contains "nợ". Only the id and the name are consulted.
   */
  predicate IsDebtWallet(w: Wallet, lower: CaseFold) {
    Contains(w.id, "debt") || Contains(lower(w.name), "nợ")
  }

  /** The classifier, read as "some window of the id or of the folded name spells the marker". */
  lemma DebtWalletByWindow(w: Wallet, lower: CaseFold)
    ensures IsDebtWallet(w, lower) <==>
      (exists i :: WindowAt(w.id, "debt", i)) || (exists j :: WindowAt(lower(w.name), "nợ", j))
  {
    ContainsIffWindow(w.id, "debt");
    ContainsIffWindow(lower(w.name), "nợ");
  }

  /** Balance and history never change a wallet's classification. */
  lemma ClassificationIgnoresBalance(w: Wallet, balance: int, lower: CaseFold)
    ensures IsDebtWallet(w.(balance := balance), lower) == IsDebtWallet(w, lower)
  {
  }

  function Balance(w: Wallet): int {
    w.balance
  }

  function Amount(t: Transaction): int {
    t.amount
  }

  /** No two wallets share an id. */
  predicate UniqueWalletIds(ws: seq<Wallet>) {
    forall a, b | 0 <= a < b < |ws| :: ws[a].id != ws[b].id
  }

  /** `ws.find(w => w.id === id)`: the first wallet with that id. */
  function FindWallet(ws: seq<Wallet>, id: string): (r: Option<Wallet>)
    ensures r.None? <==> forall k | 0 <= k < |ws| :: ws[k].id != id
    ensures r.Some? ==> exists k | 0 <= k < |ws| ::
      && ws[k] == r.value && ws[k].id == id
      && forall j | 0 <= j < k :: ws[j].id != id
  {
    if |ws| == 0 then None
    else if ws[0].id == id then Some(ws[0])
    else
      var r := FindWallet(ws[1..], id);
      assert forall k | 1 <= k < |ws| :: ws[k] == ws[1..][k - 1];
      r
  }

  /** `cs.find(c => c.id === id)`: the first category with that id. */
  function FindCategory(cs: seq<Category>, id: string): (r: Option<Category>)
    ensures r.None? <==> forall k | 0 <= k < |cs| :: cs[k].id != id
    ensures r.Some? ==> exists k | 0 <= k < |cs| ::
      && cs[k] == r.value && cs[k].id == id
      && forall j | 0 <= j < k :: cs[j].id != id
  {
    if |cs| == 0 then None
    else if cs[0].id == id then Some(cs[0])
    else
      var r := FindCategory(cs[1..], id);
      assert forall k | 1 <= k < |cs| :: cs[k] == cs[1..][k - 1];
      r
  }

  /** An id carried by some wallet is found. */
  lemma FindPresentWallet(ws: seq<Wallet>, k: int)
    requires 0 <= k < |ws|
    ensures FindWallet(ws, ws[k].id).Some?
  {
  }

  /** In a wallet list with distinct ids, the lookup returns the one wallet carrying the id. */
  lemma FindUniqueWallet(ws: seq<Wallet>, k: int)
    requires UniqueWalletIds(ws) && 0 <= k < |ws|
    ensures FindWallet(ws, ws[k].id) == Some(ws[k])
  {
  }
}
