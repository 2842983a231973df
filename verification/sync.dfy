/**
 * Merging a snapshot pulled from the spreadsheet backend into the local state
 * (App.tsx): `deduplicate`, which keeps the first record of every id, and the
 * per-field replacement policy of the pull.
 */
module Sync {
  import opened Wrappers
  import opened Seqs
  import opened Types

  /** The ids a list carries. */
  function Ids<T>(s: seq<T>, key: T -> string): set<string> {
    set k | 0 <= k < |s| :: key(s[k])
  }

  /** Position `k` holds the first record of its id. */
  predicate FirstOf<T>(s: seq<T>, key: T -> string, k: int)
    requires 0 <= k < |s|
  {
    forall j | 0 <= j < k :: key(s[j]) != key(s[k])
  }

  /** No two records share an id. */
  predicate DistinctKeys<T>(s: seq<T>, key: T -> string) {
    forall a, b | 0 <= a < b < |s| :: key(s[a]) != key(s[b])
  }

  /**
   * The reference definition of keep-first: a record survives exactly when
   * no record before it has the same id.
   */
  function KeepFirst<T>(s: seq<T>, key: T -> string): seq<T> {
    if |s| == 0 then []
    else
      var front := s[..|s| - 1];
      if key(s[|s| - 1]) in Ids(front, key) then KeepFirst(front, key)
      else KeepFirst(front, key) + [s[|s| - 1]]
  }

  lemma IdsSnoc<T>(s: seq<T>, n: int, key: T -> string)
    requires 0 <= n < |s|
    ensures Ids(s[..n + 1], key) == Ids(s[..n], key) + {key(s[n])}
  {
    var p := s[..n + 1];
    assert p[..n] == s[..n];
    assert key(p[n]) in Ids(p, key);
    forall id | id in Ids(s[..n], key) ensures id in Ids(p, key) {
      var k :| 0 <= k < n && key(s[..n][k]) == id;
      assert key(p[k]) == id;
    }
  }

  /**
   * `deduplicate`: a record whose id was already seen is dropped. A value
   * that is not an array gives the empty list.
   */
  method Deduplicate<T>(arr: Option<seq<T>>, key: T -> string) returns (r: seq<T>)
    ensures arr.None? ==> r == []
    ensures arr.Some? ==> r == KeepFirst(arr.value, key)
  {
    if arr.None? {
      return [];
    }
    var s := arr.value;
    var seen: set<string> := {};
    r := [];
    var n := 0;
    while n < |s|
      invariant 0 <= n <= |s|
      invariant seen == Ids(s[..n], key)
      invariant r == KeepFirst(s[..n], key)
    {
      IdsSnoc(s, n, key);
      assert s[..n + 1][..n] == s[..n];
      if key(s[n]) !in seen {
        r := r + [s[n]];
        seen := seen + {key(s[n])};
      }
      n := n + 1;
    }
    assert s[..|s|] == s;
  }

  /** Keep-first loses no id and invents none. */
  lemma {:induction false} KeepFirstIds<T>(s: seq<T>, key: T -> string)
    ensures Ids(KeepFirst(s, key), key) == Ids(s, key)
  {
    if |s| > 0 {
      var front := s[..|s| - 1];
      KeepFirstIds(front, key);
      IdsSnoc(s, |s| - 1, key);
      assert s[..|s|] == s;
      var r := KeepFirst(front, key);
      if key(s[|s| - 1]) !in Ids(front, key) {
        IdsSnoc(r + [s[|s| - 1]], |r|, key);
        assert (r + [s[|s| - 1]])[..|r|] == r;
        assert (r + [s[|s| - 1]])[..|r| + 1] == r + [s[|s| - 1]];
      }
    }
  }

  /** The ids that survive keep-first are pairwise distinct. */
  lemma {:induction false} KeepFirstDistinct<T>(s: seq<T>, key: T -> string)
    ensures DistinctKeys(KeepFirst(s, key), key)
  {
    if |s| > 0 {
      var front := s[..|s| - 1];
      KeepFirstDistinct(front, key);
      KeepFirstIds(front, key);
      var r := KeepFirst(front, key);
      var x := s[|s| - 1];
      if key(x) !in Ids(front, key) {
        var t := r + [x];
        forall a, b | 0 <= a < b < |t| ensures key(t[a]) != key(t[b]) {
          if b == |r| {
            assert key(r[a]) in Ids(r, key);
          } else {
            assert t[a] == r[a] && t[b] == r[b];
          }
        }
      }
    }
  }

  /** Keep-first leaves the survivors in their input order. */
  lemma {:induction false} KeepFirstSubsequence<T>(s: seq<T>, key: T -> string)
    ensures IsSubsequence(KeepFirst(s, key), s)
  {
    if |s| > 0 {
      var front := s[..|s| - 1];
      KeepFirstSubsequence(front, key);
      SubsequenceSnoc(KeepFirst(front, key), front, s[|s| - 1]);
      assert front + [s[|s| - 1]] == s;
    }
  }

  /**
   * The survivors are exactly the first records of their ids: every first
   * record survives, and every survivor is a first record.
   */
  lemma {:induction false} KeepFirstKeepsFirstRecords<T>(s: seq<T>, key: T -> string)
    ensures forall k | 0 <= k < |s| && FirstOf(s, key, k) :: s[k] in KeepFirst(s, key)
    ensures forall m | 0 <= m < |KeepFirst(s, key)| ::
      exists k | 0 <= k < |s| :: FirstOf(s, key, k) && s[k] == KeepFirst(s, key)[m]
  {
    FirstRecordsSurvive(s, key);
    SurvivorsAreFirst(s, key);
    var kept := KeepFirst(s, key);
    forall m | 0 <= m < |kept|
      ensures exists k | 0 <= k < |s| :: FirstOf(s, key, k) && s[k] == kept[m]
    {
      var k :| 0 <= k < |s| && FirstOf(s, key, k) && s[k] == kept[m];
    }
  }

  /** The dedup of `s` is the dedup of all but the last record, plus that record when it is a first one. */
  lemma KeepFirstStep<T>(s: seq<T>, key: T -> string)
    requires |s| > 0
    ensures forall k | 0 <= k < |s| - 1 :: FirstOf(s, key, k) == FirstOf(s[..|s| - 1], key, k)
    ensures FirstOf(s, key, |s| - 1) ==> KeepFirst(s, key) == KeepFirst(s[..|s| - 1], key) + [s[|s| - 1]]
    ensures !FirstOf(s, key, |s| - 1) ==> KeepFirst(s, key) == KeepFirst(s[..|s| - 1], key)
  {
    var n := |s| - 1;
    var front := s[..n];
    forall k | 0 <= k < n
      ensures FirstOf(s, key, k) == FirstOf(front, key, k)
    {
      assert forall j | 0 <= j < k :: s[j] == front[j];
    }
    assert FirstOf(s, key, n) <==> key(s[n]) !in Ids(front, key) by {
      if key(s[n]) in Ids(front, key) {
        var j :| 0 <= j < n && key(front[j]) == key(s[n]);
        assert key(s[j]) == key(s[n]);
      } else {
        forall j | 0 <= j < n ensures key(s[j]) != key(s[n]) {
          assert key(front[j]) in Ids(front, key);
        }
      }
    }
  }

  lemma {:induction false} FirstRecordsSurvive<T>(s: seq<T>, key: T -> string)
    ensures forall k | 0 <= k < |s| && FirstOf(s, key, k) :: s[k] in KeepFirst(s, key)
  {
    if |s| > 0 {
      var n := |s| - 1;
      var front := s[..n];
      FirstRecordsSurvive(front, key);
      KeepFirstStep(s, key);
      var r := KeepFirst(front, key);
      var t := KeepFirst(s, key);
      assert forall x | x in r :: x in t;
      forall k | 0 <= k < |s| && FirstOf(s, key, k)
        ensures s[k] in t
      {
        if k < n {
          assert FirstOf(front, key, k) && front[k] in r;
        } else {
          assert t[|r|] == s[n];
        }
      }
    }
  }

  lemma {:induction false} SurvivorsAreFirst<T>(s: seq<T>, key: T -> string)
    ensures forall m | 0 <= m < |KeepFirst(s, key)| ::
      exists k | 0 <= k < |s| :: FirstOf(s, key, k) && s[k] == KeepFirst(s, key)[m]
  {
    if |s| > 0 {
      var n := |s| - 1;
      var front := s[..n];
      SurvivorsAreFirst(front, key);
      KeepFirstStep(s, key);
      var r := KeepFirst(front, key);
      var t := KeepFirst(s, key);
      forall m | 0 <= m < |t|
        ensures exists k | 0 <= k < |s| :: FirstOf(s, key, k) && s[k] == t[m]
      {
        if m < |r| {
          var k :| 0 <= k < n && FirstOf(front, key, k) && front[k] == r[m];
          assert t[m] == r[m];
          assert FirstOf(s, key, k) && s[k] == t[m];
        } else {
          assert FirstOf(s, key, n) && s[n] == t[m];
        }
      }
    } else {
      assert KeepFirst(s, key) == [];
    }
  }

  /** A list whose ids are already distinct is left as it is. */
  lemma {:induction false} KeepFirstOfDistinct<T>(s: seq<T>, key: T -> string)
    requires DistinctKeys(s, key)
    ensures KeepFirst(s, key) == s
  {
    if |s| > 0 {
      var front := s[..|s| - 1];
      assert DistinctKeys(front, key);
      KeepFirstOfDistinct(front, key);
      assert key(s[|s| - 1]) !in Ids(front, key);
      assert front + [s[|s| - 1]] == s;
    }
  }

  /** `deduplicate` is idempotent. */
  lemma KeepFirstIdempotent<T>(s: seq<T>, key: T -> string)
    ensures KeepFirst(KeepFirst(s, key), key) == KeepFirst(s, key)
  {
    KeepFirstDistinct(s, key);
    KeepFirstOfDistinct(KeepFirst(s, key), key);
  }

  function WalletKey(w: Wallet): string { w.id }
  function CategoryKey(c: Category): string { c.id }
  function FavoriteKey(f: FavoriteItem): string { f.id }
  function TransactionKey(t: Transaction): string { t.id }

  /**
   * The pulled snapshot: an error flag and one optional array per list
   * (`None` when the field is not an array).
   */
  datatype Snapshot = Snapshot(
    error: bool, wallets: Option<seq<Wallet>>, categories: Option<seq<Category>>,
    favorites: Option<seq<FavoriteItem>>, transactions: Option<seq<Transaction>>,
    settingsPassword: Option<string>)

  const DefaultPassword: string := "123456"

  /** Replace only with a non-empty array. */
  function NonEmptyOr<T>(pulled: Option<seq<T>>, key: T -> string, prev: seq<T>): seq<T> {
    if pulled.Some? && |pulled.value| > 0 then KeepFirst(pulled.value, key) else prev
  }

  /** Replace with any array, even an empty one. */
  function AnyArrayOr<T>(pulled: Option<seq<T>>, key: T -> string, prev: seq<T>): seq<T> {
    if pulled.Some? then KeepFirst(pulled.value, key) else prev
  }

  /**
   * The state update of a pull. A missing response or one flagged as an
   * error leaves the state alone; otherwise each list follows its
   * replacement policy and the password falls back from the pulled one to
   * the previous one to the default. The password is never left empty.
   */
  function ApplyPull(prev: AppState, data: Option<Snapshot>): (r: AppState)
    ensures data.None? || data.value.error ==> r == prev
    ensures r.googleSheetUrl == prev.googleSheetUrl
    ensures data.Some? && !data.value.error ==> Truthy(r.settingsPassword)
  {
    if data.None? || data.value.error then prev
    else
      var d := data.value;
      prev.(
        wallets := NonEmptyOr(d.wallets, WalletKey, prev.wallets),
        categories := NonEmptyOr(d.categories, CategoryKey, prev.categories),
        favorites := AnyArrayOr(d.favorites, FavoriteKey, prev.favorites),
        transactions := AnyArrayOr(d.transactions, TransactionKey, prev.transactions),
        settingsPassword :=
          if Truthy(d.settingsPassword) then d.settingsPassword
          else if Truthy(prev.settingsPassword) then prev.settingsPassword
          else Some(DefaultPassword))
  }

  /** Which password survives a pull: the pulled one, else the previous one, else the default. */
  lemma PasswordFallback(prev: AppState, d: Snapshot)
    requires !d.error
    ensures var p := ApplyPull(prev, Some(d)).settingsPassword;
      && (Truthy(d.settingsPassword) ==> p == d.settingsPassword)
      && (!Truthy(d.settingsPassword) && Truthy(prev.settingsPassword) ==> p == prev.settingsPassword)
      && (!Truthy(d.settingsPassword) && !Truthy(prev.settingsPassword) ==> p == Some(DefaultPassword))
  {
  }

  /**
   * Field by field: an empty pulled wallet or category array keeps the local
   * list, while an empty pulled favorite or transaction array clears it.
   */
  lemma EmptyPullPolicy(prev: AppState, d: Snapshot)
    requires !d.error
    ensures var r := ApplyPull(prev, Some(d));
      && (d.wallets == Some([]) ==> r.wallets == prev.wallets)
      && (d.categories == Some([]) ==> r.categories == prev.categories)
      && (d.favorites == Some([]) ==> r.favorites == [])
      && (d.transactions == Some([]) ==> r.transactions == [])
  {
  }

  /** Field by field: a field that is not an array keeps the local list, whatever its policy and the other fields. */
  lemma MissingFieldsKeepLocal(prev: AppState, d: Snapshot)
    requires !d.error
    ensures var r := ApplyPull(prev, Some(d));
      && (d.wallets.None? ==> r.wallets == prev.wallets)
      && (d.categories.None? ==> r.categories == prev.categories)
      && (d.favorites.None? ==> r.favorites == prev.favorites)
      && (d.transactions.None? ==> r.transactions == prev.transactions)
  {
  }

  /**
   * A non-empty pulled wallet list replaces the local one by its
   * de-duplicated copy: distinct ids, exactly the pulled ids, pulled order.
   */
  lemma PulledWalletsReplace(prev: AppState, d: Snapshot)
    requires !d.error && d.wallets.Some? && |d.wallets.value| > 0
    ensures var r := ApplyPull(prev, Some(d));
      && UniqueWalletIds(r.wallets)
      && Ids(r.wallets, WalletKey) == Ids(d.wallets.value, WalletKey)
      && IsSubsequence(r.wallets, d.wallets.value)
  {
    var r := ApplyPull(prev, Some(d));
    KeepFirstDistinct(d.wallets.value, WalletKey);
    KeepFirstIds(d.wallets.value, WalletKey);
    KeepFirstSubsequence(d.wallets.value, WalletKey);
    assert forall a, b | 0 <= a < b < |r.wallets| :: WalletKey(r.wallets[a]) != WalletKey(r.wallets[b]);
  }

  /** Any pulled transaction array, even an empty one, replaces the local log by its de-duplicated copy. */
  lemma PulledTransactionsReplace(prev: AppState, d: Snapshot)
    requires !d.error && d.transactions.Some?
    ensures var r := ApplyPull(prev, Some(d));
      && DistinctKeys(r.transactions, TransactionKey)
      && Ids(r.transactions, TransactionKey) == Ids(d.transactions.value, TransactionKey)
      && IsSubsequence(r.transactions, d.transactions.value)
  {
    KeepFirstDistinct(d.transactions.value, TransactionKey);
    KeepFirstIds(d.transactions.value, TransactionKey);
    KeepFirstSubsequence(d.transactions.value, TransactionKey);
  }
}
