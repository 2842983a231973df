/**
 * The dashboard summary of components/WalletOverview.tsx: wallets split into
 * assets and debts by the classifier, the two totals, the debt ratio and
 * when the debt badges show.
 */
module WalletOverview {
  import opened Seqs
  import opened Types

  function IsAsset(lower: CaseFold): Wallet -> bool {
    (w: Wallet) => !IsDebtWallet(w, lower)
  }

  function IsDebt(lower: CaseFold): Wallet -> bool {
    (w: Wallet) => IsDebtWallet(w, lower)
  }

  function Assets(ws: seq<Wallet>, lower: CaseFold): seq<Wallet> {
    Filter(ws, IsAsset(lower))
  }

  function Debts(ws: seq<Wallet>, lower: CaseFold): seq<Wallet> {
    Filter(ws, IsDebt(lower))
  }

  /**
   * The two lists partition the wallets: each keeps the input order, each
   * wallet is in the list its classification names and not in the other, and
   * the lengths add up.
   */
  lemma {:induction false} Partition(ws: seq<Wallet>, lower: CaseFold)
    ensures |Assets(ws, lower)| + |Debts(ws, lower)| == |ws|
    ensures IsSubsequence(Assets(ws, lower), ws) && IsSubsequence(Debts(ws, lower), ws)
    ensures forall w | w in ws :: (w in Assets(ws, lower) <==> !IsDebtWallet(w, lower))
    ensures forall w | w in ws :: (w in Debts(ws, lower) <==> IsDebtWallet(w, lower))
  {
    FilterMembers(ws, IsAsset(lower));
    FilterMembers(ws, IsDebt(lower));
    FilterIsSubsequence(ws, IsAsset(lower));
    FilterIsSubsequence(ws, IsDebt(lower));
    PartitionSizes(ws, lower);
  }

  lemma {:induction false} PartitionSizes(ws: seq<Wallet>, lower: CaseFold)
    ensures |Assets(ws, lower)| + |Debts(ws, lower)| == |ws|
  {
    if |ws| > 0 {
      PartitionSizes(ws[1..], lower);
    }
  }

  function Magnitude(w: Wallet): int {
    if w.balance < 0 then -w.balance else w.balance
  }

  /** The asset total: the signed balances of the asset wallets. */
  function TotalAssets(ws: seq<Wallet>, lower: CaseFold): int {
    Sum(Assets(ws, lower), Balance)
  }

  /** The debt total: the balance sizes of the debt wallets, whatever their sign. */
  function TotalDebts(ws: seq<Wallet>, lower: CaseFold): (r: int)
    ensures r >= 0
  {
    SumNonNegative(Debts(ws, lower), Magnitude);
    Sum(Debts(ws, lower), Magnitude)
  }

  /**
   * The asset total read another way: every wallet's balance, with the debt
   * wallets counted as zero.
   */
  lemma TotalAssetsMasked(ws: seq<Wallet>, lower: CaseFold)
    ensures TotalAssets(ws, lower) == Sum(ws, Masked(IsAsset(lower), Balance))
  {
    SumFilterMasked(ws, IsAsset(lower), Balance);
  }

  /** The ratio in percent: debts over assets when assets are positive, else 100 or 0. */
  function DebtRatio(ws: seq<Wallet>, lower: CaseFold): (r: real)
    ensures r >= 0.0
    ensures TotalAssets(ws, lower) > 0 ==> r * (TotalAssets(ws, lower) as real) == 100.0 * (TotalDebts(ws, lower) as real)
    ensures TotalAssets(ws, lower) <= 0 ==> (r == 100.0 <==> TotalDebts(ws, lower) > 0)
    ensures TotalAssets(ws, lower) <= 0 ==> (r == 0.0 <==> TotalDebts(ws, lower) == 0)
  {
    var assets := TotalAssets(ws, lower);
    var debts := TotalDebts(ws, lower);
    if assets > 0 then (debts as real) / (assets as real) * 100.0
    else if debts > 0 then 100.0
    else 0.0
  }

  /** The ratio and debt badges show only when some debt is outstanding. */
  predicate ShowDebtBadges(ws: seq<Wallet>, lower: CaseFold) {
    TotalDebts(ws, lower) > 0
  }

  /**
   * The badges show exactly when some debt wallet has a non-zero balance, and
   * the ratio they show is positive then.
   */
  lemma {:induction false} BadgesIffNonZeroDebt(ws: seq<Wallet>, lower: CaseFold)
    ensures ShowDebtBadges(ws, lower) <==> exists w | w in ws :: IsDebtWallet(w, lower) && w.balance != 0
    ensures ShowDebtBadges(ws, lower) ==> DebtRatio(ws, lower) > 0.0
  {
    FilterMembers(ws, IsDebt(lower));
    var d := Debts(ws, lower);
    SumZeroIff(d);
    if exists w | w in ws :: IsDebtWallet(w, lower) && w.balance != 0 {
      var w :| w in ws && IsDebtWallet(w, lower) && w.balance != 0;
      assert w in d;
    }
  }

  /** A sum of balance sizes is zero exactly when every balance is. */
  lemma {:induction false} SumZeroIff(d: seq<Wallet>)
    ensures Sum(d, Magnitude) == 0 <==> forall w | w in d :: w.balance == 0
  {
    if |d| > 0 {
      SumZeroIff(d[1..]);
      SumNonNegative(d[1..], Magnitude);
      assert forall w | w in d :: w == d[0] || w in d[1..];
    }
  }
}
