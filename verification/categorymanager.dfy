/**
 * The category screen of components/CategoryManager.tsx and the App.tsx
 * handlers behind it: the add form with its budget field, the reserved
 * transfer category, the listed categories and the inline budget edit.
 */
module CategoryManager {
  import opened Wrappers
  import opened Strings
  import opened Seqs
  import opened Types
  import opened Ledger
  import opened Utils

  /** The budget field's change handler: the typed digits, grouped. */
  function BudgetInputText(typed: string): string {
    Group(KeepDigits(typed))
  }

  /** The budget field formats exactly as the shared amount formatter does. */
  lemma BudgetFieldIsAmountFormat(typed: string)
    ensures BudgetInputText(typed) == FormatInputNumber(typed)
  {
    if typed == "" {
      FilterNone(typed, IsDigit);
    }
  }

  /**
   * The budget of a new category: none for an empty field, otherwise the
   * field read by `parseFloat` after its dots are dropped. A text without a
   * digit would read as NaN; it is `None` here, like an empty field.
   */
  function NewBudget(text: string): Option<int> {
    if text == "" then None else ParseFloat(StripDots(text))
  }

  /** The add form's fields. */
  datatype AddForm = AddForm(name: string, icon: string, kind: CategoryType, budgetText: string)

  /** A category as the form hands it over, before it receives an id. */
  datatype Draft = Draft(name: string, icon: string, kind: CategoryType, color: string, budget: Option<int>)

  /** `handleSubmit`: nothing for an empty name; a red EXPENSE or a green other category otherwise. */
  function HandleSubmit(f: AddForm): (r: Option<Draft>)
    ensures r.None? <==> f.name == ""
    ensures r.Some? ==> r.value.name == f.name && r.value.kind == f.kind && r.value.icon == f.icon
    ensures r.Some? ==> (r.value.color == "#f43f5e" <==> f.kind == Expense)
    ensures r.Some? ==> (r.value.color == "#10b981" <==> f.kind != Expense)
    ensures r.Some? ==> r.value.budget == NewBudget(f.budgetText)
  {
    if f.name == "" then None
    else Some(Draft(f.name, f.icon, f.kind, if f.kind == Expense then "#f43f5e" else "#10b981", NewBudget(f.budgetText)))
  }

  /**
   * The budget field only ever holds grouped digits, so a new category gets no
   * budget exactly when no digit was typed, and otherwise the number typed.
   */
  lemma NewBudgetIsTyped(typed: string)
    ensures KeepDigits(typed) == "" ==> NewBudget(BudgetInputText(typed)) == None
    ensures KeepDigits(typed) != "" ==> NewBudget(BudgetInputText(typed)) == Some(DigitsValue(KeepDigits(typed)))
  {
    var d := KeepDigits(typed);
    if d != "" {
      GroupWellGrouped(d);
      StripGroup(d);
      ParseFloatOfDigits(d);
    }
  }

  /** App.tsx's `onAdd`: the draft is appended with the id "c-" and the clock reading. */
  function AddCategory(cats: seq<Category>, d: Draft, now: nat): (r: seq<Category>)
    ensures |r| == |cats| + 1 && r[..|cats|] == cats
    ensures r[|cats|].id == "c-" + NatToString(now) && r[|cats|].budget == d.budget && r[|cats|].kind == d.kind
    ensures r[|cats|].name == d.name && r[|cats|].icon == d.icon && r[|cats|].color == d.color
  {
    cats + [Category("c-" + NatToString(now), d.name, d.icon, d.kind, d.color, d.budget)]
  }

  /**
   * The inline budget edit of a listed EXPENSE category: the typed digits
   * read by `parseInt`, or no budget when there are none.
   */
  function InlineBudget(typed: string): (r: Option<int>)
    ensures r.None? <==> KeepDigits(typed) == ""
    ensures r.Some? ==> r.value >= 0 && NatToString(r.value) == TrimZeros(KeepDigits(typed))
  {
    var d := KeepDigits(typed);
    if d == "" then None
    else
      NatTextOfDigits(d);
      Some(DigitsValue(d))
  }

  /** The new-category budget and the inline edit read the same typed text alike. */
  lemma BudgetReadingsAgree(typed: string)
    ensures NewBudget(BudgetInputText(typed)) == InlineBudget(typed)
  {
    NewBudgetIsTyped(typed);
  }

  /**
   * `initiateDelete`: the reserved transfer category "12" never enters the
   * confirmation state; any other id does, including the debt-payment "10".
   */
  function InitiateDelete(pending: Option<string>, id: string): (r: Option<string>)
    ensures id == TransferCategoryId ==> r == pending
    ensures id != TransferCategoryId ==> r == Some(id)
  {
    if id == TransferCategoryId then pending else Some(id)
  }

  /** The delete confirmation can be reached for exactly the ids other than "12". */
  lemma ConfirmReachableIff(pending: Option<string>, id: string)
    requires pending != Some(id)
    ensures InitiateDelete(pending, id) == Some(id) <==> id != TransferCategoryId
  {
  }

  predicate NotTransfer(c: Category) {
    c.kind != Transfer
  }

  /** The categories shown (each with a delete button): every non-TRANSFER one, in order. */
  function Listed(cats: seq<Category>): (r: seq<Category>)
    ensures forall c | c in r :: c in cats && c.kind != Transfer
    ensures forall c | c in cats && c.kind != Transfer :: c in r
    ensures IsSubsequence(r, cats)
  {
    FilterMembers(cats, NotTransfer);
    FilterIsSubsequence(cats, NotTransfer);
    Filter(cats, NotTransfer)
  }

  function IdIsNot(id: string): Category -> bool {
    (c: Category) => c.id != id
  }

  /**
   * App.tsx's `onDelete`: every category with the id goes, and the others
   * stay in their order, each as often as before.
   */
  function DeleteCategory(cats: seq<Category>, id: string): (r: seq<Category>)
    ensures forall c | c in r :: c in cats && c.id != id
    ensures forall c | c in cats && c.id != id :: c in r
    ensures IsSubsequence(r, cats)
    ensures forall c :: multiset(r)[c] == if c.id != id then multiset(cats)[c] else 0
  {
    FilterMembers(cats, IdIsNot(id));
    FilterIsSubsequence(cats, IdIsNot(id));
    FilterMultiplicity(cats, IdIsNot(id));
    Filter(cats, IdIsNot(id))
  }

  /**
   * With distinct ids, deleting through a listed category's button never
   * removes a TRANSFER category: the listed one is not a TRANSFER, and only
   * it carries its id.
   */
  lemma ListedDeleteKeepsTransfers(cats: seq<Category>, c: Category)
    requires forall a, b | 0 <= a < b < |cats| :: cats[a].id != cats[b].id
    requires c in Listed(cats)
    ensures forall t | t in cats && t.kind == Transfer :: t in DeleteCategory(cats, c.id)
  {
    forall t | t in cats && t.kind == Transfer
      ensures t.id != c.id
    {
      var a :| 0 <= a < |cats| && cats[a] == t;
      var b :| 0 <= b < |cats| && cats[b] == c;
      assert a != b;
    }
  }

  /**
   * Deleting the debt-payment category "10" does not disarm the engine: an
   * intent with category "10" and a second wallet still debits both wallets,
   * and its record simply carries no category name.
   */
  lemma DebtPaymentOutlivesItsCategory(s: AppState, i: Intent, id: string, now: Stamp, lower: CaseFold)
    requires i.kind != Transfer && i.categoryId == DebtPaymentCategoryId && Truthy(i.toWalletId)
    ensures var t := s.(categories := DeleteCategory(s.categories, DebtPaymentCategoryId));
      var r := AddTransaction(t, i, id, now, lower);
      && r.transactions[|t.transactions|].categoryName.None?
      && forall k | 0 <= k < |t.wallets| ::
           r.wallets[k].balance == t.wallets[k].balance
             - (if t.wallets[k].id == i.walletId || t.wallets[k].id == i.toWalletId.value then i.amount else 0)
  {
    var t := s.(categories := DeleteCategory(s.categories, DebtPaymentCategoryId));
    assert forall k | 0 <= k < |t.categories| :: t.categories[k] in t.categories;
    assert FindCategory(t.categories, DebtPaymentCategoryId).None?;
    DebtPaymentPosting(t, i, id, now, lower);
  }
}
