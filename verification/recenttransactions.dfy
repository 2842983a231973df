/**
 * The transaction list of components/RecentTransactions.tsx: the history
 * sorted newest first, the preview cut, the buckets per calendar day with
 * their keys in descending order, the expand toggles and the day totals.
 */
module RecentTransactions {
  import opened Seqs
  import opened Strings
  import opened Types
  import opened Chrono

  /** The number of records the dashboard preview shows. */
  const PreviewSize: nat := 15

  /** What the list shows: all records newest first, cut to the preview size in preview mode. */
  function Displayed(txs: seq<Transaction>, preview: bool): (r: seq<Transaction>)
    ensures |r| == (if preview && |txs| > PreviewSize then PreviewSize else |txs|)
    ensures r == SortNewestFirst(txs)[..|r|]
    ensures NewestFirst(r)
    ensures !preview ==> multiset(r) == multiset(txs)
  {
    var sorted := SortNewestFirst(txs);
    if preview && |sorted| > PreviewSize then sorted[..PreviewSize] else sorted
  }

  /** The "view all" button shows exactly when the preview hides some record. */
  lemma ViewAllIffCut(txs: seq<Transaction>, preview: bool)
    ensures (preview && |txs| > PreviewSize) <==> |Displayed(txs, preview)| < |txs|
  {
  }

  /** `s.split('T')[0]`: the text before the first 'T', or all of it. */
  function BeforeT(s: string): (r: string)
    ensures |r| <= |s| && r == s[..|r|]
    ensures 'T' !in r
    ensures |r| < |s| ==> s[|r|] == 'T'
  {
    if |s| == 0 || s[0] == 'T' then "" else [s[0]] + BeforeT(s[1..])
  }

  /** The day a record is filed under: its date text up to the time part. */
  function DateKey(t: Transaction): string {
    BeforeT(t.date.text)
  }

  /** `grouped`: the displayed records collected per day. */
  function Grouped(txs: seq<Transaction>, preview: bool): map<string, seq<Transaction>> {
    GroupBy(Displayed(txs, preview), DateKey)
  }

  /**
   * Every displayed record is in exactly one bucket, the one of its own day,
   * and every bucket lists its records newest first, in the displayed order.
   */
  lemma BucketsPartition(txs: seq<Transaction>, preview: bool)
    ensures var d := Displayed(txs, preview); var g := Grouped(txs, preview);
      && (forall t | t in d :: DateKey(t) in g && t in g[DateKey(t)])
      && (forall k, t | k in g && t in g[k] :: t in d && DateKey(t) == k)
      && (forall k | k in g :: IsSubsequence(g[k], d) && NewestFirst(g[k]))
  {
    var d := Displayed(txs, preview);
    var g := Grouped(txs, preview);
    GroupByPartitions(d, DateKey);
    forall t | t in d
      ensures DateKey(t) in g && t in g[DateKey(t)]
    {
      var i :| 0 <= i < |d| && d[i] == t;
      GroupsCover(d, DateKey, i);
    }
    forall k | k in g
      ensures forall t | t in g[k] :: t in d && DateKey(t) == k
      ensures IsSubsequence(g[k], d) && NewestFirst(g[k])
    {
      FilterMembers(d, KeyIs(DateKey, k));
      FilterIsSubsequence(d, KeyIs(DateKey, k));
      FilterKeepsNewestFirst(d, KeyIs(DateKey, k));
    }
  }

  /** Dropping records from a newest-first list leaves it newest first. */
  lemma {:induction false} FilterKeepsNewestFirst(s: seq<Transaction>, p: Transaction -> bool)
    requires NewestFirst(s)
    ensures NewestFirst(Filter(s, p))
  {
    if |s| > 0 {
      assert NewestFirst(s[1..]);
      FilterKeepsNewestFirst(s[1..], p);
      var rest := Filter(s[1..], p);
      FilterMembers(s[1..], p);
      if p(s[0]) {
        var r := [s[0]] + rest;
        forall b | 1 <= b < |r|
          ensures r[0].date.millis >= r[b].date.millis
        {
          assert r[b] == rest[b - 1];
          assert rest[b - 1] in s[1..];
        }
        assert Filter(s, p) == r;
      } else {
        assert Filter(s, p) == rest;
      }
    }
  }

  /** No key repeats, and each key is greater than the next one in code-point order. */
  predicate StrictlyDescending(keys: seq<string>) {
    forall a, b | 0 <= a < b < |keys| :: LexLess(keys[b], keys[a])
  }

  /** Puts a key into a strictly descending list, unless it is already there. */
  function InsertKey(k: string, keys: seq<string>): (r: seq<string>)
    requires StrictlyDescending(keys)
    ensures StrictlyDescending(r)
    ensures forall x :: x in r <==> x == k || x in keys
  {
    if |keys| == 0 then [k]
    else if k == keys[0] then keys
    else if LexLess(keys[0], k) then
      var r := [k] + keys;
      forall b | 1 <= b < |r|
        ensures LexLess(r[b], k)
      {
        if b > 1 {
          LexLessTransitive(r[b], keys[0], k);
        }
      }
      r
    else
      LexLessTotal(k, keys[0]);
      var rest := InsertKey(k, keys[1..]);
      var r := [keys[0]] + rest;
      forall b | 1 <= b < |r|
        ensures LexLess(r[b], keys[0])
      {
        assert r[b] == rest[b - 1];
        assert rest[b - 1] in rest;
      }
      assert forall x :: x in keys <==> x == keys[0] || x in keys[1..];
      r
  }

  /** `dateKeys`: the bucket keys, sorted descending. */
  function DateKeys(d: seq<Transaction>): (r: seq<string>)
    ensures StrictlyDescending(r)
    ensures forall x :: x in r <==> exists i | 0 <= i < |d| :: DateKey(d[i]) == x
  {
    if |d| == 0 then []
    else
      var r := InsertKey(DateKey(d[0]), DateKeys(d[1..]));
      assert forall i | 1 <= i < |d| :: d[i] == d[1..][i - 1];
      r
  }

  /** The keys listed are exactly the buckets, each once, newest day first. */
  lemma DateKeysAreBuckets(txs: seq<Transaction>, preview: bool)
    ensures var keys := DateKeys(Displayed(txs, preview));
      && (forall k :: k in keys <==> k in Grouped(txs, preview))
      && (forall a, b | 0 <= a < b < |keys| :: keys[a] != keys[b])
  {
    var keys := DateKeys(Displayed(txs, preview));
    GroupByPartitions(Displayed(txs, preview), DateKey);
    forall a, b | 0 <= a < b < |keys|
      ensures keys[a] != keys[b]
    {
      if keys[a] == keys[b] {
        LexLessIrreflexive(keys[a]);
      }
    }
  }

  /** `toggleExpand`: the day's membership flips. */
  function ToggleExpand(expanded: set<string>, k: string): (r: set<string>)
    ensures k in r <==> k !in expanded
    ensures forall x | x != k :: x in r <==> x in expanded
  {
    if k in expanded then expanded - {k} else expanded + {k}
  }

  /** Toggling the same day twice restores the set. */
  lemma ToggleTwice(expanded: set<string>, k: string)
    ensures ToggleExpand(ToggleExpand(expanded, k), k) == expanded
  {
  }

  /** A day's records show when it is today or was expanded. */
  predicate IsExpanded(k: string, today: string, expanded: set<string>) {
    k == today || k in expanded
  }

  /**
   * Toggling a past day flips whether its records show and leaves every
   * other day alone; toggling today changes nothing visible.
   */
  lemma ToggleVisibility(expanded: set<string>, k: string, today: string)
    ensures k != today ==> IsExpanded(k, today, ToggleExpand(expanded, k)) != IsExpanded(k, today, expanded)
    ensures forall x | x != k :: IsExpanded(x, today, ToggleExpand(expanded, k)) == IsExpanded(x, today, expanded)
    ensures IsExpanded(today, today, ToggleExpand(expanded, k))
  {
  }

  function OfKind(kind: CategoryType): Transaction -> bool {
    (t: Transaction) => t.kind == kind
  }

  /** `getDaySummary`: the EXPENSE total and the INCOME total of a day. */
  function DaySummary(txs: seq<Transaction>): (int, int) {
    (Sum(Filter(txs, OfKind(Expense)), Amount), Sum(Filter(txs, OfKind(Income)), Amount))
  }

  /**
   * The day totals account for every record but the TRANSFER ones: with the
   * transfer total they make up the sum of all amounts.
   */
  lemma {:induction false} DaySummaryAccounts(txs: seq<Transaction>)
    ensures DaySummary(txs).0 + DaySummary(txs).1 + Sum(Filter(txs, OfKind(Transfer)), Amount) == Sum(txs, Amount)
  {
    if |txs| > 0 {
      DaySummaryAccounts(txs[1..]);
      assert txs == [txs[0]] + txs[1..];
      SumAppend([txs[0]], txs[1..], Amount);
      FirstTerm(txs, OfKind(Expense));
      FirstTerm(txs, OfKind(Income));
      FirstTerm(txs, OfKind(Transfer));
    }
  }

  /** The sum of a filter splits into the first record's share and the rest's. */
  lemma FirstTerm(txs: seq<Transaction>, p: Transaction -> bool)
    requires |txs| > 0
    ensures Sum(Filter(txs, p), Amount) == (if p(txs[0]) then txs[0].amount else 0) + Sum(Filter(txs[1..], p), Amount)
  {
    var head: seq<Transaction> := if p(txs[0]) then [txs[0]] else [];
    SumAppend(head, Filter(txs[1..], p), Amount);
    if p(txs[0]) {
      assert Sum(head, Amount) == txs[0].amount + Sum(head[1..], Amount);
    }
  }
}
