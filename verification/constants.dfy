/**
 * The seed data of constants.ts: the twelve categories, the four starting
 * wallets and the four starting favorites, with the facts the rest of the
 * program relies on stated about them.
 */
module Constants {
  import opened Wrappers
  import opened Strings
  import opened Types

  /** `CATEGORIES`, in their declared order; none carries a budget. */
  const Categories: seq<Category> := [
    Category("1", "Ăn uống", "🍔", Expense, "#ef4444", None),
    Category("2", "Di chuyển", "🚗", Expense, "#f59e0b", None),
    Category("3", "Mua sắm", "🛍️", Expense, "#3b82f6", None),
    Category("4", "Giải trí", "🎮", Expense, "#8b5cf6", None),
    Category("5", "Sức khỏe", "💊", Expense, "#10b981", None),
    Category("6", "Hóa đơn", "⚡", Expense, "#6366f1", None),
    Category("10", "Trả nợ", "💸", Expense, "#f43f5e", None),
    Category("7", "Lương", "💰", Income, "#10b981", None),
    Category("8", "Tiền thưởng", "🎁", Income, "#fbbf24", None),
    Category("11", "Thu nợ", "📥", Income, "#06b6d4", None),
    Category("12", "Chuyển tiền", "🔄", Transfer, "#6366f1", None),
    Category("9", "Khác", "✨", Income, "#94a3b8", None)
  ]

  /** `INITIAL_WALLETS`. */
  const InitialWallets: seq<Wallet> := [
    Wallet("w1", "Tiền mặt", 5000000, "💵", "#10b981"),
    Wallet("w-vcb", "Vietcombank", 15000000, "💳", "#059669"),
    Wallet("w-tcb", "Techcombank", 10000000, "💳", "#dc2626"),
    Wallet("w-cafe-127", "Nợ CAFE 127", 0, "☕", "#78350f")
  ]

  /** `INITIAL_FAVORITES`. */
  const InitialFavorites: seq<FavoriteItem> := [
    FavoriteItem("f1", "Cafe đá", 16000, "1", "☕", "CAFE 127", "w-cafe-127"),
    FavoriteItem("f2", "Thuốc lá", 18000, "1", "🚬", "CAFE 127", "w-cafe-127"),
    FavoriteItem("f3", "Bạc xỉu", 22000, "1", "🥛", "CAFE 127", "w-cafe-127"),
    FavoriteItem("f4", "Phở bò", 45000, "1", "🍜", "Quán Ăn Sáng", "w1")
  ]

  /** The category ids, in the declared order. */
  const CategoryIds: seq<string> := ["1", "2", "3", "4", "5", "6", "10", "7", "8", "11", "12", "9"]

  lemma IdsOfCategories()
    ensures |Categories| == |CategoryIds|
    ensures forall k | 0 <= k < |Categories| :: Categories[k].id == CategoryIds[k]
  {
  }

  /** No two seeded categories share an id. */
  lemma CategoryIdsDistinct()
    ensures forall a, b | 0 <= a < b < |Categories| :: Categories[a].id != Categories[b].id
  {
    IdsOfCategories();
    forall a, b | 0 <= a < b < |CategoryIds|
      ensures CategoryIds[a] != CategoryIds[b]
    {
      if a < 6 {
        assert |CategoryIds[a]| == 1;
        if |CategoryIds[b]| == 1 {
          assert b == 7 || b == 8 || b == 11 || (b < 6);
        }
      }
    }
  }

  /** The transfer category "12" is the one and only TRANSFER category. */
  lemma TransferCategoryUnique()
    ensures forall k | 0 <= k < |Categories| :: Categories[k].kind == Transfer <==> Categories[k].id == TransferCategoryId
  {
    IdsOfCategories();
  }

  /** With the ids distinct, looking up a seeded category's id finds that category. */
  lemma FindSeededCategory(k: int)
    requires 0 <= k < |Categories|
    ensures FindCategory(Categories, Categories[k].id) == Some(Categories[k])
  {
    CategoryIdsDistinct();
    var r := FindCategory(Categories, Categories[k].id);
    var j :| 0 <= j < |Categories| && Categories[j] == r.value && Categories[j].id == Categories[k].id;
    assert j == k;
  }

  /** A lookup of the transfer category finds the TRANSFER entry. */
  lemma TransferCategorySeeded()
    ensures FindCategory(Categories, TransferCategoryId) == Some(Categories[10])
    ensures Categories[10].kind == Transfer
  {
    assert Categories[10].id == TransferCategoryId;
    FindSeededCategory(10);
  }

  /** The debt payment category "10" is seeded, as an EXPENSE named "Trả nợ". */
  lemma DebtPaymentCategorySeeded()
    ensures FindCategory(Categories, DebtPaymentCategoryId) == Some(Categories[6])
    ensures Categories[6].kind == Expense && Categories[6].name == "Trả nợ"
  {
    assert Categories[6].id == DebtPaymentCategoryId;
    FindSeededCategory(6);
  }

  /** The wallet ids are distinct and every starting balance is non-negative. */
  lemma WalletsWellFormed()
    ensures UniqueWalletIds(InitialWallets)
    ensures forall k | 0 <= k < |InitialWallets| :: InitialWallets[k].balance >= 0
  {
  }

  /** Every favorite names a seeded EXPENSE category and a seeded wallet. */
  lemma FavoritesResolve()
    ensures forall f | f in InitialFavorites ::
      && FindCategory(Categories, f.categoryId) == Some(Categories[0])
      && Categories[0].kind == Expense
      && FindWallet(InitialWallets, f.defaultWalletId).Some?
  {
    assert Categories[0].id == "1";
    FindSeededCategory(0);
    FavoriteWalletsFound();
    FavoriteTargets();
  }

  /** Every favorite files under category "1" and defaults to the cafe tab or to cash. */
  lemma FavoriteTargets()
    ensures forall f | f in InitialFavorites ::
      f.categoryId == "1" && (f.defaultWalletId == "w-cafe-127" || f.defaultWalletId == "w1")
  {
  }

  /** Both wallets the favourites default to are seeded. */
  lemma FavoriteWalletsFound()
    ensures FindWallet(InitialWallets, "w-cafe-127").Some? && FindWallet(InitialWallets, "w1").Some?
  {
    assert InitialWallets[3].id == "w-cafe-127" && InitialWallets[0].id == "w1";
    FindPresentWallet(InitialWallets, 3);
    FindPresentWallet(InitialWallets, 0);
  }

  /** A wallet whose id lacks a letter of "debt" and whose folded name lacks 'ợ' is not a debt wallet. */
  lemma AssetByLetters(w: Wallet, lower: CaseFold, c: char)
    requires c in "debt" && c !in w.id
    requires 'ợ' !in lower(w.name)
    ensures !IsDebtWallet(w, lower)
  {
    if Contains(w.id, "debt") {
      ContainsCharacters(w.id, "debt", c);
    }
    if Contains(lower(w.name), "nợ") {
      ContainsCharacters(lower(w.name), "nợ", 'ợ');
    }
  }

  /** A wallet whose folded name starts with "nợ" is a debt wallet. */
  lemma DebtByNamePrefix(w: Wallet, lower: CaseFold, rest: string)
    requires lower(w.name) == "nợ" + rest
    ensures IsDebtWallet(w, lower)
  {
    ContainsPrefix(lower(w.name), "nợ", rest);
  }

  lemma CashIsAsset(lower: CaseFold)
    requires lower("Tiền mặt") == "tiền mặt"
    ensures !IsDebtWallet(InitialWallets[0], lower)
  {
    AssetByLetters(InitialWallets[0], lower, 'b');
  }

  lemma VietcombankIsAsset(lower: CaseFold)
    requires lower("Vietcombank") == "vietcombank"
    ensures !IsDebtWallet(InitialWallets[1], lower)
  {
    AssetByLetters(InitialWallets[1], lower, 'd');
  }

  lemma TechcombankIsAsset(lower: CaseFold)
    requires lower("Techcombank") == "techcombank"
    ensures !IsDebtWallet(InitialWallets[2], lower)
  {
    AssetByLetters(InitialWallets[2], lower, 'd');
  }

  lemma CafeTabIsDebt(lower: CaseFold)
    requires lower("Nợ CAFE 127") == "nợ cafe 127"
    ensures IsDebtWallet(InitialWallets[3], lower)
  {
    DebtByNamePrefix(InitialWallets[3], lower, " cafe 127");
  }

  /**
   * Under a case folding that lower-cases the four seed names, the café tab
   * is the only debt wallet: no id contains "debt", and only its folded name
   * contains "nợ".
   */
  lemma OnlyCafeTabIsDebt(lower: CaseFold)
    requires lower("Tiền mặt") == "tiền mặt"
    requires lower("Vietcombank") == "vietcombank"
    requires lower("Techcombank") == "techcombank"
    requires lower("Nợ CAFE 127") == "nợ cafe 127"
    ensures forall k | 0 <= k < |InitialWallets| :: IsDebtWallet(InitialWallets[k], lower) <==> k == 3
  {
    CashIsAsset(lower);
    VietcombankIsAsset(lower);
    TechcombankIsAsset(lower);
    CafeTabIsDebt(lower);
    forall k | 0 <= k < |InitialWallets|
      ensures IsDebtWallet(InitialWallets[k], lower) <==> k == 3
    {
      assert k == 0 || k == 1 || k == 2 || k == 3;
    }
  }
}
