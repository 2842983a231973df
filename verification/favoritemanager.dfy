/**
 * The quick-entry favorites screen of components/FavoriteManager.tsx and the
 * App.tsx handlers behind it: the price field helpers, the grouping of
 * favorites by shop, the add form and the shop rename.
 */
module FavoriteManager {
  import opened Wrappers
  import opened Strings
  import opened Seqs
  import opened Types
  import opened Utils

  /**
   * `formatNumber` applied to a stored price: the integer's decimal text,
   * reduced to its digits (a minus sign is dropped) and grouped. Applied to a
   * text it is `formatInputNumber`.
   */
  function FormatPrice(price: int): string {
    Group(KeepDigits(IntToString(price)))
  }

  /** The digits of an integer's text spell its absolute value. */
  lemma DigitsOfIntText(n: int)
    ensures KeepDigits(IntToString(n)) == NatToString(if n < 0 then -n else n)
  {
    var m: nat := if n < 0 then -n else n;
    FilterAll(NatToString(m), IsDigit);
    if n < 0 {
      FilterAppend("-", NatToString(m), IsDigit);
      assert Filter("-", IsDigit) == [];
    }
  }

  /**
   * The inline price field shows the stored price grouped, and reading that
   * text back gives the price's absolute value: every non-negative price
   * survives an edit that leaves the text alone.
   */
  lemma PriceFieldRoundTrip(price: int)
    ensures ParseInputNumber(FormatPrice(price)) == (if price < 0 then -price else price)
    ensures WellGrouped(FormatPrice(price))
  {
    var m: nat := if price < 0 then -price else price;
    DigitsOfIntText(price);
    FilterAll(NatToString(m), IsDigit);
    assert FormatPrice(price) == FormatInputNumber(NatToString(m));
    ParseFormatNat(m);
    GroupWellGrouped(NatToString(m));
  }

  /** The add form: the item's text fields and its current choices. */
  datatype AddForm = AddForm(
    name: string, priceText: string, shop: string, categoryId: string, walletId: string, icon: string)

  /** A favorite as the form hands it over, before it receives an id. */
  datatype Draft = Draft(
    name: string, price: int, categoryId: string, icon: string, shopName: string, defaultWalletId: string)

  /** `handleAddSubmit`: nothing unless the name, the shop and the price text are all filled in. */
  function HandleAddSubmit(f: AddForm): (r: Option<Draft>)
    ensures r.None? <==> f.name == "" || f.shop == "" || f.priceText == ""
    ensures r.Some? ==>
      && r.value.name == f.name && r.value.shopName == f.shop
      && r.value.price == ParseInputNumber(f.priceText)
      && r.value.categoryId == f.categoryId && r.value.defaultWalletId == f.walletId
      && r.value.icon == f.icon
  {
    if f.name == "" || f.shop == "" || f.priceText == "" then None
    else Some(Draft(f.name, ParseInputNumber(f.priceText), f.categoryId, f.icon, f.shop, f.walletId))
  }

  /**
   * The price field only ever holds grouped text, so an added favorite is
   * accepted exactly when the typed price had a digit, and its price is the
   * number those digits spell: never negative.
   */
  lemma AddedPriceIsTyped(f: AddForm, typed: string)
    requires f.priceText == FormatInputNumber(typed)
    ensures HandleAddSubmit(f).Some? <==> f.name != "" && f.shop != "" && KeepDigits(typed) != ""
    ensures HandleAddSubmit(f).Some? ==> HandleAddSubmit(f).value.price == DigitsValue(KeepDigits(typed)) >= 0
  {
    FormatShape(typed);
    ParseFormatRoundTrip(typed);
  }

  /** App.tsx's `onAdd`: the draft is appended with the id "f-" and the clock reading. */
  function AddFavorite(favs: seq<FavoriteItem>, d: Draft, now: nat): (r: seq<FavoriteItem>)
    ensures |r| == |favs| + 1 && r[..|favs|] == favs
    ensures r[|favs|].id == "f-" + NatToString(now)
    ensures r[|favs|].price == d.price && r[|favs|].shopName == d.shopName && r[|favs|].name == d.name
    ensures r[|favs|].categoryId == d.categoryId && r[|favs|].icon == d.icon
    ensures r[|favs|].defaultWalletId == d.defaultWalletId
  {
    favs + [FavoriteItem("f-" + NatToString(now), d.name, d.price, d.categoryId, d.icon, d.shopName, d.defaultWalletId)]
  }

  function ShopName(f: FavoriteItem): string {
    f.shopName
  }

  /**
   * `groupedFavorites`: the favorites collected per shop name. Every
   * favorite is in the group of its shop, every group holds only favorites of
   * its shop, and each group keeps the list order.
   */
  function GroupByShop(favs: seq<FavoriteItem>): (r: map<string, seq<FavoriteItem>>)
    ensures forall k | 0 <= k < |favs| :: favs[k].shopName in r && favs[k] in r[favs[k].shopName]
    ensures forall shop | shop in r :: exists k | 0 <= k < |favs| :: favs[k].shopName == shop
    ensures forall shop, f | shop in r && f in r[shop] :: f in favs && f.shopName == shop
    ensures forall shop | shop in r :: IsSubsequence(r[shop], favs)
  {
    var r := GroupBy(favs, ShopName);
    GroupByPartitions(favs, ShopName);
    forall k | 0 <= k < |favs|
      ensures favs[k].shopName in r && favs[k] in r[favs[k].shopName]
    {
      GroupsCover(favs, ShopName, k);
    }
    forall shop | shop in r
      ensures forall f | f in r[shop] :: f in favs && f.shopName == shop
      ensures IsSubsequence(r[shop], favs)
    {
      FilterMembers(favs, KeyIs(ShopName, shop));
      FilterIsSubsequence(favs, KeyIs(ShopName, shop));
    }
    r
  }

  /**
   * The shop rename (`saveShopName` and App.tsx's `onUpdateShopName`): every
   * favorite of the old shop moves to the new name, nothing else changes.
   */
  function RenameShop(favs: seq<FavoriteItem>, oldName: string, newName: string): (r: seq<FavoriteItem>)
    ensures |r| == |favs|
    ensures forall k | 0 <= k < |favs| :: r[k].(shopName := favs[k].shopName) == favs[k]
    ensures forall k | 0 <= k < |favs| :: r[k].shopName == (if favs[k].shopName == oldName then newName else favs[k].shopName)
  {
    seq(|favs|, k requires 0 <= k < |favs| =>
      if favs[k].shopName == oldName then favs[k].(shopName := newName) else favs[k])
  }

  /** Renaming to a name no favorite uses yet can be undone by renaming back. */
  lemma RenameRoundTrip(favs: seq<FavoriteItem>, oldName: string, newName: string)
    requires forall k | 0 <= k < |favs| :: favs[k].shopName != newName
    ensures RenameShop(RenameShop(favs, oldName, newName), newName, oldName) == favs
  {
    var back := RenameShop(RenameShop(favs, oldName, newName), newName, oldName);
    assert forall k | 0 <= k < |favs| :: back[k] == favs[k];
  }

  /** After the rename the old shop has no favorites left, unless the name was kept. */
  lemma RenameEmptiesOldShop(favs: seq<FavoriteItem>, oldName: string, newName: string)
    requires oldName != newName
    ensures oldName !in GroupByShop(RenameShop(favs, oldName, newName))
  {
    var r := RenameShop(favs, oldName, newName);
    assert forall k | 0 <= k < |r| :: r[k].shopName != oldName;
  }
}
