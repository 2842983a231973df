# SmartFinance (SpendWise) ledger core in Dafny

SpendWise is a single-page personal finance app. It keeps a list of wallets
(cash, bank accounts, and debt tabs such as a café tab), a log of transactions,
a list of categories and a list of quick-entry favorites. This project models
its core logic as pure Dafny functions and proves properties about them.

The core covers these parts:

- **The ledger engine.** `addTransaction` in App.tsx turns a transaction intent
  into new records and balance changes. It has three branches:
  - a two-leg transfer;
  - a debt payment, keyed on category "10";
  - a single-wallet posting, whose sign depends on the wallet's debt
    classification (`isDebtWallet`).
- **The pull merge.** It applies a snapshot pulled from the spreadsheet
  backend, using keep-first `deduplicate` and a per-field replacement policy.
- **The read-only views:**
  - the per-wallet debt ledger;
  - the dashboard's asset and debt summary;
  - the history list: a newest-first sort, a preview cut, one bucket per day,
    the expand toggles and the day totals.
- **The form validators.** They decide which intents reach the engine:
  - the transaction form;
  - the debt payment dialog;
  - the category, wallet and favorite screens.
- **The digit-grouping amount formatter and parser, and the relative-time
  buckets.**
- **The greeting header's two total mappings:**
  - weather code to icon, following the WMO Manual on Codes, code table 4677,
    as served by Open-Meteo;
  - hour to greeting.
- **The seed data.**

The modules follow the program's files:

| module | models |
|---|---|
| `Types` | types.ts, the `isDebtWallet` classifier (App.tsx:21) and `find` by id |
| `Ledger` | `addTransaction` (App.tsx:119-179) |
| `Sync` | `deduplicate` and the pull merge (App.tsx:24-32, 85-93) |
| `Chrono` | the newest-first stable sort shared by two views |
| `DebtLedger` | components/DebtLedgerModal.tsx |
| `CrossChecks` | the engine and the debt ledger moving together |
| `Utils` | utils.ts |
| `TransactionForm`, `PaymentModal`, `FavoriteManager`, `CategoryManager`, `WalletManager`, `WalletOverview`, `RecentTransactions` | the components of the same names |
| `Greeting` | components/GreetingHeader.tsx |
| `Constants` | constants.ts |
| `Strings`, `Seqs`, `Wrappers` | the JavaScript string, array and optional-value operations the code relies on |

Modelling choices:

- **Money.** Amounts and balances are unbounded `int`. The debt ratio is a
  `real`.
- **Dates.** A date is a `Stamp`: the ISO text, plus the instant in
  milliseconds that `new Date(text).getTime()` gives.
  - Sorting uses the instant.
  - Day grouping uses the text before the first 'T'.
- **Case folding.** `toLowerCase` is the parameter `lower: CaseFold`, an
  uninterpreted `string -> string`.
- **Generated values become parameters:**
  - the random transaction id;
  - the `Date.now()` suffix of new wallet, category and favorite ids;
  - the clock.
- **JavaScript truthiness is modelled where the code relies on it:**
  - an empty `toWalletId` counts as absent;
  - an empty note falls back;
  - an empty password falls back.
- **`parseFloat`.** It reads optional white space, one sign and the longest
  digit run. `None` stands for NaN.

Two behaviours of the code worth stating plainly:

- **A debt payment debits both wallets, the debt wallet included**
  (App.tsx:145-148).
- **An empty pulled transaction array clears the local log** (App.tsx:91).

## Model

| member | source | states |
|---|---|---|
| Types.DebtWalletByWindow | App.tsx:21 | A wallet is a debt wallet exactly when some window of its id spells "debt" or some window of its folded name spells "nợ". |
| Types.ClassificationIgnoresBalance | App.tsx:21 | The classification depends on the id and the name only; a balance change never changes it. |
| Types.FindWallet | App.tsx:125 | `find` by id returns the first wallet carrying the id, and nothing exactly when no wallet carries it. |
| Types.FindCategory | App.tsx:141 | `find` by id returns the first category carrying the id, and nothing exactly when none carries it. |
| Types.FindUniqueWallet | App.tsx:125 | With distinct ids, looking up a wallet's id returns that wallet. |
| Ledger.SettleAll | App.tsx:132-172 | The balance update keeps the wallet count and order and applies the branch's callback to each wallet in place. |
| Ledger.AddTransaction | App.tsx:119-179 | The old log is a prefix of the new one, which is one or two (transfer) records longer. Every new record carries the intent's amount and the payment date. Wallet count and order are kept and only balances change. Every wallet other than the two named ones is unchanged. Categories, favorites, URL and password are untouched. |
| Ledger.TransferPosting | App.tsx:128-136 | A TRANSFER with a second wallet, whatever its category, appends an EXPENSE leg with the id and then an INCOME leg with id+"in". Both legs carry category "12", the same amount and the same date, and the wallets are swapped in the second leg. The source loses the amount and the target gains it. |
| Ledger.SelfTransferOnlyDebits | App.tsx:132-135 | A transfer to the paying wallet itself debits it once and never credits it, because the first matching arm wins. |
| Ledger.DebtPaymentPosting | App.tsx:140-149 | A non-transfer with category "10" and a second wallet appends one record that keeps the caller's type and second wallet. Both wallets lose the amount whatever their classification, and the same wallet on both sides loses it once. |
| Ledger.SingleWalletSignTable | App.tsx:157-172 | In the single-wallet branch, on an asset wallet EXPENSE subtracts and anything else adds. On a debt wallet EXPENSE adds and anything else subtracts. "Anything else" includes a TRANSFER without a second wallet. |
| Ledger.UnknownWalletMovesNothing | App.tsx:122-177 | An intent naming only missing wallets still appends its record, but no balance moves. |
| Ledger.SettleAllTotal | App.tsx:132-148 | With distinct ids and two distinct wallets, the balance sum falls by the amount if the payer exists. It also rises (transfer) or falls (debt payment) by the amount if the second wallet exists. |
| Ledger.TransferConservesTotal | App.tsx:128-136 | A transfer between two distinct existing wallets keeps the sum of all balances. |
| Ledger.DebtPaymentLowersTotalTwice | App.tsx:140-149 | A debt payment between two distinct existing wallets lowers the sum of all balances by twice the amount. |
| Sync.Deduplicate | App.tsx:24-32 | The seen-set loop computes the keep-first reference (a record survives exactly when no earlier record has its id). A value that is not an array gives the empty list. |
| Sync.KeepFirstIds | App.tsx:24-32 | Keep-first has exactly the id set of its input. |
| Sync.KeepFirstDistinct | App.tsx:24-32 | The ids of the output are pairwise distinct. |
| Sync.KeepFirstSubsequence | App.tsx:24-32 | The output is a subsequence of the input. |
| Sync.KeepFirstKeepsFirstRecords | App.tsx:24-32 | Every first occurrence of an id survives, and every survivor is a first occurrence. |
| Sync.KeepFirstOfDistinct | App.tsx:24-32 | A list with distinct ids is returned unchanged. |
| Sync.KeepFirstIdempotent | App.tsx:24-32 | `deduplicate` applied twice equals applying it once. |
| Sync.ApplyPull | App.tsx:85-93 | A missing or error response leaves the state alone. The sheet URL is never changed, and after a pull the password is never empty. |
| Sync.PasswordFallback | App.tsx:92 | The password falls back from the pulled one to the previous one to "123456". |
| Sync.EmptyPullPolicy | App.tsx:88-91 | Field by field, whatever the other fields hold: an empty pulled wallet or category array keeps that local list, and an empty pulled favorite or transaction array clears it. |
| Sync.MissingFieldsKeepLocal | App.tsx:88-91 | Field by field, whatever the other fields hold: a field that is not an array keeps that local list. |
| Sync.PulledWalletsReplace | App.tsx:88 | A non-empty pulled wallet array replaces the local list by a subsequence of it. The replacement has distinct ids and exactly the pulled ids. |
| Sync.PulledTransactionsReplace | App.tsx:91 | Any pulled transaction array replaces the log by a subsequence with distinct ids and exactly the pulled ids. |
| Chrono.SortNewestFirst | components/RecentTransactions.tsx:17 | The sorted copy is a permutation of the records with non-increasing dates. |
| Chrono.SortSorted | components/DebtLedgerModal.tsx:18 | The stable sort leaves an already newest-first list as it is. |
| DebtLedger.LedgerEntries | components/DebtLedgerModal.tsx:16-18 | The entries are exactly the records naming the wallet on either side, as a permutation of that filter, newest first. |
| DebtLedger.LedgerOf | components/DebtLedgerModal.tsx:16-26 | The borrowed total is the sum over the whole history of EXPENSE records whose primary wallet is this one, so INCOME legs are excluded. The paid total sums the records paying into the wallet. The outstanding figure is the live balance. |
| DebtLedger.TotalsOverHistory | components/DebtLedgerModal.tsx:20-26 | Summing over the sorted entries equals summing over the unsorted history restricted to charges (respectively repayments). |
| DebtLedger.TotalsBounded | components/DebtLedgerModal.tsx:20-26 | With non-negative amounts, both totals are non-negative and neither exceeds the sum of all entry amounts. |
| DebtLedger.EntryDisplay | components/DebtLedgerModal.tsx:63 | An entry not shown as a repayment has the wallet as its primary wallet, so it is a charge row. |
| CrossChecks.ChargeRaisesBalanceAndBorrowed | App.tsx:157-172 | A single-wallet EXPENSE of `a` on a debt wallet raises its balance and its borrowed total by `a`. Its paid total moves only when the record also names the wallet as its second wallet. |
| CrossChecks.PaymentLowersBalanceRaisesPaid | App.tsx:140-149 | A debt payment of `a` from another wallet lowers the debt wallet's balance by `a`, raises its paid total by `a` and keeps its borrowed total. |
| CrossChecks.TransferRaisesPaidAndBalance | App.tsx:128-136 | A transfer of `a` into a debt wallet raises its paid total by `a`, and its balance by `a` as well. |
| Utils.ParseFloat | utils.ts:13 | Text without any digit reads as NaN. |
| Utils.ParseFloatOfDigits | utils.ts:13 | A non-empty digit string reads as the number it spells. |
| Utils.ParseFloatReadsPrefix | utils.ts:13 | After any white space and one optional sign, a non-empty digit run reads as its value, negated after a minus, whatever follows the run. |
| Utils.ParseFloatNoPrefix | utils.ts:13 | When no digit follows the white space and the sign, the text reads as NaN, even if digits come later. |
| Utils.ParseInputNumberReadsPrefix | utils.ts:12-14 | The field reads the numeric prefix of its dot-free text. |
| Utils.ParseInputNumberNoPrefix | utils.ts:12-14 | Dot-free text without a numeric prefix reads as 0. |
| Utils.LetterBeforeDigitsReadsZero | utils.ts:12-14 | "abc12" reads as 0. |
| Utils.SignedPrefixReadsValue | utils.ts:12-14 | " -5x" reads as -5. |
| Utils.LoneSignReadsZero | utils.ts:12-14 | "+" reads as 0. |
| Utils.ParseInputNumber | utils.ts:12-14 | Text without any digit parses to 0. |
| Utils.GroupWellGrouped | utils.ts:9 | Grouping a non-empty digit string gives digits and dots only. The first group has one to three digits and every later group exactly three. |
| Utils.StripGroup | utils.ts:9 | Removing the dots of grouped digits gives the digits back. |
| Utils.DigitsOfGroup | utils.ts:9 | Keeping the digits of grouped digits gives the digits back. |
| Utils.FormatShape | utils.ts:6-10 | `formatInputNumber("")` is "". The output is empty exactly when the input has no digit; otherwise it is well grouped. |
| Utils.FormatKeepsDigits | utils.ts:8-9 | Deleting the dots of the output yields exactly the input's digits, in order. |
| Utils.FormatIdempotent | utils.ts:6-10 | Formatting formatted text changes nothing. |
| Utils.ParseFormatRoundTrip | utils.ts:6-14 | Parsing the formatted text gives the number the input's digits spell, and 0 without digits. |
| Utils.ParseFormatNat | utils.ts:6-14 | The formatted decimal text of a non-negative integer parses back to it. |
| Utils.WellGroupedIsGroup | utils.ts:9 | A well-grouped text is the grouping of its own digits. |
| Utils.RelativeTime | utils.ts:23-32 | Under one minute, including future dates, is "just now". Under an hour gives floor-minutes (1 to 59), under a day floor-hours (1 to 23), and otherwise a date; the four buckets are exclusive. |
| Utils.AgeLabel | utils.ts:27-31 | Exactly the date bucket has no fixed label; its text is a locale-formatted date. The other three buckets each get a label ("Vừa xong", "N phút trước", "N giờ trước"). |
| Strings.NatToString | components/TransactionForm.tsx:71 | `toString()` of a non-negative integer is a digit string without a leading zero that spells the integer. |
| Strings.NatTextOfDigits | components/CategoryManager.tsx:166 | The decimal text of a digit string's value is that string without its leading zeros. |
| Strings.ContainsIffWindow | App.tsx:21 | `includes` holds exactly when some window of the text spells the searched string. |
| Strings.TrimEmptyIff | components/TransactionForm.tsx:60 | `trim()` is empty exactly when the text is all white space. |
| Strings.TrimEnds | components/TransactionForm.tsx:60 | The trimmed text neither starts nor ends with white space. |
| Strings.LexLessIrreflexive | components/RecentTransactions.tsx:28 | No key sorts strictly before itself. |
| Strings.LexLessTransitive | components/RecentTransactions.tsx:28 | The key order is transitive. |
| Strings.LexLessTotal | components/RecentTransactions.tsx:28 | Any two distinct keys are ordered one way or the other. |
| Seqs.GroupByPartitions | components/FavoriteManager.tsx:42-46 | The reduce-grouping has a group for exactly the keys that occur. Each group is the input filtered to its key, in input order. |
| TransactionForm.HandleSubmit | components/TransactionForm.tsx:51-64 | No intent exactly when the amount is at most 0 or the overdraft guard fires. A TRANSFER gets category "12", the destination and icon "🔄". Anything else keeps its category, gets no destination and takes the category's icon. The note is the trimmed input, else the category's name, else "". |
| TransactionForm.DisabledIffNoIntent | components/TransactionForm.tsx:170 | The button is disabled exactly when pressing it would emit nothing. |
| TransactionForm.SubmittedBranch | components/TransactionForm.tsx:57-59 | A submitted TRANSFER with a non-empty destination reaches the engine's two-leg branch. Everything else reaches the single-wallet branch, including a TRANSFER with an empty destination and anything with category "10". |
| TransactionForm.SubmitKeepsAssetSolvent | components/TransactionForm.tsx:46-53 | An accepted EXPENSE, or a TRANSFER with a destination, debits an existing asset wallet by the amount and leaves it non-negative. |
| TransactionForm.QuickAmountAdds | components/TransactionForm.tsx:69-72 | A quick-amount button makes the field read the old number plus the button's value, regrouped. |
| TransactionForm.FirstOfKind | components/TransactionForm.tsx:35 | Returns the first category of the type in list order, and nothing exactly when no category has that type. |
| TransactionForm.CategoryOnTypeChange | components/TransactionForm.tsx:33-40 | Switching to TRANSFER selects "12". Switching to another type selects the first category of that type, or keeps the selection when there is none. |
| TransactionForm.TypeSwitchSelectsMatchingCategory | components/TransactionForm.tsx:33-40 | After switching to a non-transfer type that has categories, the selected category is of that type. |
| TransactionForm.InitialSelection | components/TransactionForm.tsx:28-29 | The source starts at the first wallet. The destination starts at the second wallet, and so differs from the source when ids are distinct. It equals the source when there is only one wallet. |
| TransactionForm.QuickAddUnchecked | components/TransactionForm.tsx:207-209 | A tapped favorite posts an EXPENSE of its price on the selector's wallet, or on its own wallet for "default". No guard applies: an asset wallet loses the price whatever its balance, and a debt wallet gains it. |
| PaymentModal.CopiesAgree | components/PaymentModal.tsx:16-24 | The dialog's private `formatNumber` and `parseNumber` agree with the shared helpers on every text. |
| PaymentModal.InitialAmountReadsDebt | components/PaymentModal.tsx:28 | The opening amount text reads back as the absolute value of the debt's balance. |
| PaymentModal.OtherWallets | components/PaymentModal.tsx:44 | The offered sources are every wallet except the debt itself, in list order. |
| PaymentModal.InitialSourceMayBeTheDebt | components/PaymentModal.tsx:27 | The initial source is the first wallet even when that is the debt wallet, which is not offered. |
| PaymentModal.HandleSubmit | components/PaymentModal.tsx:38-42 | `onPay` gets the source and the amount exactly when the amount is positive and the source, if it exists, covers it. A debt-classified source gets no exemption. |
| PaymentModal.ZeroAmountEnabledButIgnored | components/PaymentModal.tsx:106 | A zero amount over solvent wallets leaves the button enabled, and pressing it calls nothing. |
| PaymentModal.RepaymentSettles | App.tsx:190-200 | An accepted repayment from another wallet lowers both the source and the debt wallet by the amount, and the source stays non-negative. |
| PaymentModal.SelfRepaymentDebitsOnce | App.tsx:145-148 | Paying a debt from itself passes the guard when its balance covers the amount, and then debits it once. |
| FavoriteManager.DigitsOfIntText | components/FavoriteManager.tsx:18-20 | The digits of an integer's text spell its absolute value. |
| FavoriteManager.PriceFieldRoundTrip | components/FavoriteManager.tsx:225-226 | The inline price field shows the price grouped, and reading it back gives the price's absolute value. |
| FavoriteManager.HandleAddSubmit | components/FavoriteManager.tsx:58-70 | Nothing is added exactly when the name, the shop or the price text is empty. Otherwise the parsed price and the chosen category, wallet and icon are handed over. |
| FavoriteManager.AddedPriceIsTyped | components/FavoriteManager.tsx:124 | Since the price field holds grouped text, an add is accepted exactly when a digit was typed. The price is then the non-negative number typed. |
| FavoriteManager.AddFavorite | App.tsx:333-334 | The draft with the new id is appended: id "f-" plus the clock reading, and the draft's name, price, category, icon, shop and default wallet; the old list is its prefix. |
| FavoriteManager.GroupByShop | components/FavoriteManager.tsx:42-46 | Each favorite is in its shop's group and each group holds only that shop's favorites, in list order. Every group's shop occurs. |
| FavoriteManager.RenameShop | App.tsx:345-346 | Exactly the favorites of the old shop get the new name, and no other field or item changes. |
| FavoriteManager.RenameRoundTrip | App.tsx:345-346 | Renaming to an unused name and back restores the list. |
| FavoriteManager.RenameEmptiesOldShop | components/FavoriteManager.tsx:53-56 | After a rename to a different name, the old shop has no group. |
| CategoryManager.BudgetFieldIsAmountFormat | components/CategoryManager.tsx:100-102 | The budget field's handler formats exactly as `formatInputNumber`. |
| CategoryManager.HandleSubmit | components/CategoryManager.tsx:24-33 | Nothing is added exactly when the name is empty. The colour is "#f43f5e" exactly for EXPENSE and "#10b981" exactly otherwise, and the budget is the parsed field. |
| CategoryManager.NewBudgetIsTyped | components/CategoryManager.tsx:32 | A new category has no budget exactly when no digit was typed. Otherwise its budget is the number typed. |
| CategoryManager.AddCategory | App.tsx:320-321 | The draft with the new id is appended: id "c-" plus the clock reading, and the draft's name, icon, type, color and budget; the old list is its prefix. |
| CategoryManager.InlineBudget | components/CategoryManager.tsx:164-166 | The inline edit gives no budget exactly when no digit was typed. Otherwise it is the number whose text is the typed digits without leading zeros. |
| CategoryManager.BudgetReadingsAgree | components/CategoryManager.tsx:32 | The add form and the inline edit read the same typed text alike. |
| CategoryManager.InitiateDelete | components/CategoryManager.tsx:39-46 | "12" never enters the delete confirmation. Every other id does, "10" included. |
| CategoryManager.ConfirmReachableIff | components/CategoryManager.tsx:41-45 | The confirmation is reached exactly for ids other than "12". |
| CategoryManager.Listed | components/CategoryManager.tsx:131 | The listed categories are exactly the non-TRANSFER ones, in order. |
| CategoryManager.DeleteCategory | App.tsx:324-325 | Deleting keeps exactly the categories with another id, in their order (a subsequence) and each as often as before; every category with the id goes. |
| CategoryManager.ListedDeleteKeepsTransfers | components/CategoryManager.tsx:131 | With distinct ids, deleting through a listed category's button never removes a TRANSFER category. |
| CategoryManager.DebtPaymentOutlivesItsCategory | App.tsx:140-149 | After "10" is deleted, a debt payment still debits both wallets; its record has no category name. |
| WalletManager.HandleSubmit | components/WalletManager.tsx:25-33 | Nothing is added exactly when the name is empty. The colour is "#f43f5e" exactly when the debt switch is on and "#6366f1" exactly when it is off. |
| WalletManager.NewBalanceIsTyped | components/WalletManager.tsx:30 | The balance field holds grouped text, so a new wallet starts at the non-negative number typed, and at 0 for an empty field. |
| WalletManager.AddWallet | App.tsx:305-307 | The draft with the new id is appended: id "w-debt-" or "w-" plus the clock reading, and the draft's name, balance, icon and color; the old list is its prefix. |
| WalletManager.NewWalletClassification | App.tsx:305-307 | A wallet added with the debt switch on is always a debt wallet. One added with it off is a debt wallet exactly when its folded name contains "nợ". |
| WalletManager.AssetColourOnDebtWallet | components/WalletManager.tsx:32 | A wallet added with the switch off whose name folds to contain "nợ" is a debt wallet with the asset colour. |
| WalletManager.CaptionFollowsClassifier | components/WalletManager.tsx:116 | The caption reads "Khoản nợ" exactly for the wallets the engine treats as debt. |
| WalletOverview.Partition | components/WalletOverview.tsx:16-17 | Assets and debts partition the wallets: each keeps input order, each wallet is in exactly the list of its class, and the lengths add up. |
| WalletOverview.TotalDebts | components/WalletOverview.tsx:20 | The debt total is never negative. |
| WalletOverview.TotalAssetsMasked | components/WalletOverview.tsx:19 | The asset total is every wallet's balance with debt wallets counted as zero. The header total at App.tsx:181 is the same expression. |
| WalletOverview.DebtRatio | components/WalletOverview.tsx:24 | With positive assets the ratio times the assets is 100 times the debts. Otherwise it is 100 exactly when debts are positive and 0 exactly when they are zero. |
| WalletOverview.BadgesIffNonZeroDebt | components/WalletOverview.tsx:38 | The badges show exactly when some debt wallet has a non-zero balance, and the ratio is positive then. |
| RecentTransactions.Displayed | components/RecentTransactions.tsx:17-18 | The list is the first min(15, n) sorted records in preview and all of them otherwise, always newest first; the full list is a permutation of the records. |
| RecentTransactions.ViewAllIffCut | components/RecentTransactions.tsx:159 | "View all" shows exactly when the preview hides some record. |
| RecentTransactions.BeforeT | components/RecentTransactions.tsx:22 | The day key is the longest prefix of the date text without a 'T'. |
| RecentTransactions.BucketsPartition | components/RecentTransactions.tsx:21-26 | Each displayed record is in the bucket of its day key. Each bucket holds only records of that day, as a subsequence of the list, newest first. |
| RecentTransactions.InsertKey | components/RecentTransactions.tsx:28 | Inserting a key keeps the keys strictly descending and adds exactly that key. |
| RecentTransactions.DateKeys | components/RecentTransactions.tsx:28 | The keys are strictly descending and are exactly the day keys of the records. |
| RecentTransactions.DateKeysAreBuckets | components/RecentTransactions.tsx:28 | The listed keys are exactly the buckets, each once. |
| RecentTransactions.ToggleExpand | components/RecentTransactions.tsx:31-39 | Toggling flips the given day and no other. |
| RecentTransactions.ToggleTwice | components/RecentTransactions.tsx:31-39 | Toggling the same day twice restores the set. |
| RecentTransactions.ToggleVisibility | components/RecentTransactions.tsx:66-67 | Today is always expanded. Toggling a past day flips whether it shows and leaves every other day alone. |
| RecentTransactions.DaySummaryAccounts | components/RecentTransactions.tsx:41-45 | The expense total, the income total and the TRANSFER total together make up the sum of all amounts, so only TRANSFER records are left out. |
| Greeting.BandsDisjoint | components/GreetingHeader.tsx:7-18 | No code lies in two listed bands, so the order of the tests does not matter. |
| Greeting.WeatherIcon | components/GreetingHeader.tsx:4-20 | A code in a listed band gets that band's icon (by day or by night). |
| Greeting.UnlistedFallsBack | components/GreetingHeader.tsx:19 | A code in no band gets ☀️ by day and 🌙 by night. |
| Greeting.FallbackCodes | components/GreetingHeader.tsx:19 | The codes 4, 56-60, 68-70, 76, 87-94 and the negative codes fall back. |
| Greeting.RainIcons | components/GreetingHeader.tsx:11-16 | Rain (61-65) and rain showers (80-82) share 🌧️; drizzle (51-55) is 🌦️. |
| Greeting.GreetingFor | components/GreetingHeader.tsx:65-71 | Every hour gets the greeting of its part of the day: 5-11 morning, 12-17 afternoon, 18-21 evening, the rest late night. |
| Greeting.EveryHourOnePart | components/GreetingHeader.tsx:65-71 | Every hour 0-23 lies in exactly one part of the day. |
| Greeting.GreetingsDistinct | components/GreetingHeader.tsx:67-70 | The four greetings differ. |
| Constants.CategoryIdsDistinct | constants.ts:4-17 | The seed category ids are pairwise distinct. |
| Constants.TransferCategoryUnique | constants.ts:4-17 | A seed category is TRANSFER exactly when its id is "12". |
| Constants.FindSeededCategory | constants.ts:4-17 | Looking up any seed category's id finds that category. |
| Constants.TransferCategorySeeded | constants.ts:15 | Looking up "12" finds the TRANSFER category. |
| Constants.DebtPaymentCategorySeeded | constants.ts:11 | Looking up "10" finds an EXPENSE category named "Trả nợ". |
| Constants.WalletsWellFormed | constants.ts:19-24 | The seed wallet ids are distinct and every balance is non-negative. |
| Constants.FavoritesResolve | constants.ts:26-31 | Every seed favorite names a seeded EXPENSE category and a seeded wallet. |
| Constants.OnlyCafeTabIsDebt | constants.ts:19-24 | Under a folding that lower-cases the seed names, only "w-cafe-127" ("Nợ CAFE 127") is a debt wallet. |

## Left out

- **Persistence and the network.**
  - The spreadsheet sync calls (App.tsx:105-117, 137-138, 151-155, 174) and the fetch around the pull are I/O. A pull is modelled as an optional snapshot.
  - The localStorage load and save are I/O.
  - The weather fetch and geolocation are I/O. The weather code and `isDay` are inputs.
  - The Gemini call is I/O.
- **React state that is not a value transformation:**
  - the tabs;
  - the password gate (App.tsx:286-289);
  - the stale read of `state` inside the asynchronous `addTransaction`;
  - the form resets after a submit.
- **Locale formatting.** `Intl.NumberFormat`, `toLocaleString` and `toLocaleDateString` are locale libraries. The last relative-time bucket is the tag `OnDate`, with no text.
- **The wallet, category and favorite `onUpdate` and `onDelete` handlers.** These are plain `map`/`filter` updates of one record; only the category delete, which has a guard, is modelled. The favorite delete confirmation is also left out.
- **The favorite add form's initial category and wallet choice** (the first entry of each list) is not modelled. It is an input of `HandleAddSubmit`.
- **Case folding.** Unicode `toLowerCase` is the uninterpreted parameter `lower`. WalletOverview.tsx:13 adds a `typeof name === 'string'` test; names are always strings here, so it is the App.tsx:21 classifier, `Types.IsDebtWallet`. The copies at TransactionForm.tsx:44 and WalletManager.tsx:116 are textually that classifier.
- Utils.ParseFloat: exponents, "Infinity" and fractional digits are not modelled. The model reads only white space, a sign and a digit run, so text such as "Infinity" or "1e3" is read differently from `parseFloat`. Every call site removes the dots first, and the fields hold digits only.
- Utils.ParseInputNumber: "Infinity" and "-Infinity" parse to infinities in the source; here they have no digit and read as 0. Fractions and exponents are not read either.
- TransactionForm.InitialSelection: on an empty wallet list the source throws a TypeError at components/TransactionForm.tsx:28 (`wallets[0].id`). That state is reachable: App.tsx:310-311 deletes wallets without a lower bound, and App.tsx:261 still renders the form. The model does not cover that crash and requires a non-empty list.
- CategoryManager.NewBudget: a non-empty field without digits would store NaN. It is modelled as no budget, since the field's handler never leaves such text.
- **Ids and the clock.** `Math.random().toString(36)` and `Date.now()` are parameters. Invalid dates (`NaN` instants) are not modelled; every `Stamp` has an integer instant.
- **Sorting.** `localeCompare` on day keys is modelled as code-point order (`Strings.LexLess`). For ISO date keys the two agree.
- **Grouping.** The JavaScript objects used for grouping become maps. Prototype keys such as "constructor", and the key order of `Object.keys`, are not modelled.
- **TransactionForm's own `groupedFavorites`** (components/TransactionForm.tsx:74-78) is the same reduce as FavoriteManager's. Both are `Seqs.GroupBy`.
- **Number width.** JavaScript numbers are doubles: sums beyond 2^53 and prices whose `toString()` switches to exponent notation are not modelled.
- **Unused components.** components/BorrowModal.tsx and components/LendingActionModal.tsx are never rendered by App.tsx. components/SavingsDetailModal.tsx uses floating-point interest. components/ExpenseCharts.tsx holds unresolved merge-conflict text. components/SmartInsights.tsx is a foreign call.
- Chrono.SortNewestFirst: it states the permutation and the order, but not stability in general. Only `Chrono.SortSorted`, which leaves an already sorted list alone, is stated.
