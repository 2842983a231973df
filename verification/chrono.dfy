/**
 * The newest-first ordering both the debt ledger and the transaction history
 * apply: `sort((a, b) => time(b) - time(a))`, a stable sort on the date's
 * instant.
 */
module Chrono {
  import opened Types

  /** Dates never increase along the list. */
  predicate NewestFirst(s: seq<Transaction>) {
    forall a, b | 0 <= a < b < |s| :: s[a].date.millis >= s[b].date.millis
  }

  /**
   * Puts `t` before the first record that is not newer than it, so that
   * records of equal date keep their relative order.
   */
  function InsertNewest(t: Transaction, s: seq<Transaction>): (r: seq<Transaction>)
    requires NewestFirst(s)
    ensures NewestFirst(r)
    ensures multiset(r) == multiset(s) + multiset{t}
    ensures |r| == |s| + 1
  {
    if |s| == 0 || s[0].date.millis <= t.date.millis then
      var r := [t] + s;
      assert forall b | 1 <= b < |r| :: r[b] == s[b - 1];
      r
    else
      var rest := InsertNewest(t, s[1..]);
      KeepsHeadFirst(t, s, rest);
      [s[0]] + rest
  }

  /** Putting the skipped record back in front of the recursive result keeps the order and the records. */
  lemma KeepsHeadFirst(t: Transaction, s: seq<Transaction>, rest: seq<Transaction>)
    requires NewestFirst(s) && 0 < |s| && t.date.millis < s[0].date.millis
    requires NewestFirst(rest) && multiset(rest) == multiset(s[1..]) + multiset{t}
    ensures NewestFirst([s[0]] + rest)
    ensures multiset([s[0]] + rest) == multiset(s) + multiset{t}
  {
    InsertedBelow(t, s, rest);
    var r := [s[0]] + rest;
    assert forall b | 1 <= b < |r| :: r[b] == rest[b - 1];
    assert s == [s[0]] + s[1..];
  }

  /** What the recursive step inserts into lies below the first record it skipped. */
  lemma InsertedBelow(t: Transaction, s: seq<Transaction>, rest: seq<Transaction>)
    requires NewestFirst(s) && 0 < |s| && t.date.millis < s[0].date.millis
    requires multiset(rest) == multiset(s[1..]) + multiset{t}
    ensures forall k | 0 <= k < |rest| :: rest[k].date.millis <= s[0].date.millis
  {
    forall k | 0 <= k < |rest| ensures rest[k].date.millis <= s[0].date.millis {
      assert rest[k] in multiset(rest);
      if rest[k] != t {
        assert rest[k] in multiset(s[1..]);
        var j :| 0 <= j < |s[1..]| && s[1..][j] == rest[k];
        assert s[j + 1] == rest[k];
      }
    }
  }

  /** The sorted copy: a newest-first arrangement of exactly the same records. */
  function SortNewestFirst(s: seq<Transaction>): (r: seq<Transaction>)
    ensures NewestFirst(r)
    ensures multiset(r) == multiset(s)
    ensures |r| == |s|
  {
    if |s| == 0 then []
    else
      assert s == [s[0]] + s[1..];
      InsertNewest(s[0], SortNewestFirst(s[1..]))
  }

  /** A list that is already newest-first needs no reordering by a stable sort. */
  lemma {:induction false} SortSorted(s: seq<Transaction>)
    requires NewestFirst(s)
    ensures SortNewestFirst(s) == s
  {
    if |s| > 0 {
      assert NewestFirst(s[1..]);
      SortSorted(s[1..]);
      assert s == [s[0]] + s[1..];
    }
  }
}
