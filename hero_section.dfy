/**
 * The key figures of the landing hero (src/components/vault/EnhancedHeroSection.tsx):
 * total TVL and the plain mean APR over the fetched pools, written into the
 * `kpiData` state once the pool list has arrived. A figure is kept as the number
 * it shows; the one-decimal rendering is not part of the model.
 */
module HeroSection {
  import opened Wrappers

  /** The two fields of a pool that the figures read. */
  datatype PoolStats = PoolStats(tvl: real, apr: real)

  /** A displayed figure: a fixed text, a dollar amount in millions, a percentage, or the
      `NaN%` that a mean over no pools renders as. */
  datatype Figure = Fixed(text: string) | Millions(amount: real) | Percent(rate: real) | PercentNaN

  /** `vaults.reduce((sum, vault) => sum + vault.tvl, 0)`. */
  function TotalTvl(vaults: seq<PoolStats>): (r: real)
    ensures (forall i :: 0 <= i < |vaults| ==> vaults[i].tvl >= 0.0) ==> r >= 0.0
  {
    if vaults == [] then 0.0 else TotalTvl(vaults[..|vaults| - 1]) + vaults[|vaults| - 1].tvl
  }

  /** `vaults.reduce((sum, vault) => sum + vault.apr, 0)`. */
  function TotalApr(vaults: seq<PoolStats>): real {
    if vaults == [] then 0.0 else TotalApr(vaults[..|vaults| - 1]) + vaults[|vaults| - 1].apr
  }

  /** The TVL of a concatenation is the sum of the parts' TVLs. */
  lemma {:induction false} TotalTvlAppend(a: seq<PoolStats>, b: seq<PoolStats>)
    ensures TotalTvl(a + b) == TotalTvl(a) + TotalTvl(b)
    decreases |b|
  {
    if b == [] {
      assert a + b == a;
    } else {
      var ab := a + b;
      assert ab[..|ab| - 1] == a + b[..|b| - 1];
      TotalTvlAppend(a, b[..|b| - 1]);
    }
  }

  /** Pools that all hold non-negative TVL give a total at least as large as any one of them. */
  lemma {:induction false} TotalTvlCoversEachPool(vaults: seq<PoolStats>, k: int)
    requires forall i :: 0 <= i < |vaults| ==> vaults[i].tvl >= 0.0
    requires 0 <= k < |vaults|
    ensures TotalTvl(vaults) >= vaults[k].tvl
  {
    TotalTvlAppend(vaults[..k], vaults[k..]);
    assert vaults[..k] + vaults[k..] == vaults;
    assert TotalTvl(vaults[..k]) >= 0.0;
    TotalTvlAppend([vaults[k]], vaults[k + 1..]);
    assert vaults[k..] == [vaults[k]] + vaults[k + 1..];
    assert TotalTvl(vaults[k + 1..]) >= 0.0;
    assert [vaults[k]][..0] == [];
  }

  /** The mean APR; the source divides by the pool count with no guard, so it needs a pool. */
  function MeanApr(vaults: seq<PoolStats>): (r: real)
    requires |vaults| > 0
    ensures r * (|vaults| as real) == TotalApr(vaults)
  {
    TotalApr(vaults) / (|vaults| as real)
  }

  /** The sum of APRs that each lie in [lo, hi] lies between `n * lo` and `n * hi`. */
  lemma {:induction false} TotalAprBounds(vaults: seq<PoolStats>, lo: real, hi: real)
    requires forall i :: 0 <= i < |vaults| ==> lo <= vaults[i].apr <= hi
    ensures (|vaults| as real) * lo <= TotalApr(vaults) <= (|vaults| as real) * hi
  {
    if vaults != [] {
      TotalAprBounds(vaults[..|vaults| - 1], lo, hi);
      StepBounds((|vaults| - 1) as real, lo, hi, TotalApr(vaults[..|vaults| - 1]), vaults[|vaults| - 1].apr);
    }
  }

  lemma StepBounds(n: real, lo: real, hi: real, sum: real, x: real)
    requires n * lo <= sum <= n * hi && lo <= x <= hi
    ensures (n + 1.0) * lo <= sum + x <= (n + 1.0) * hi
  {
  }

  lemma QuotientBounds(sum: real, n: real, r: real, lo: real, hi: real)
    requires n > 0.0 && n * lo <= sum <= n * hi && r * n == sum
    ensures lo <= r <= hi
  {
  }

  /** The mean lies between the lowest and the highest APR bound of the pools. */
  lemma MeanAprBounds(vaults: seq<PoolStats>, lo: real, hi: real)
    requires |vaults| > 0
    requires forall i :: 0 <= i < |vaults| ==> lo <= vaults[i].apr <= hi
    ensures lo <= MeanApr(vaults) <= hi
  {
    TotalAprBounds(vaults, lo, hi);
    QuotientBounds(TotalApr(vaults), |vaults| as real, MeanApr(vaults), lo, hi);
  }

  /** The figure an APR mean shows: `NaN%` for no pools, the mean otherwise. */
  function AprFigure(vaults: seq<PoolStats>): (r: Figure)
    ensures vaults == [] <==> r == PercentNaN
    ensures vaults != [] ==> r == Percent(MeanApr(vaults))
  {
    if |vaults| == 0 then PercentNaN else Percent(MeanApr(vaults))
  }

  /** The `kpiData` state. */
  class HeroKpis {
    var tvl: Figure
    var apr: Figure
    var activeLPs: string

    /** The placeholders shown until pool data arrives. */
    constructor ()
      ensures tvl == Fixed("$6.3M") && apr == Fixed("18.7%") && activeLPs == "2,000+"
    {
      tvl := Fixed("$6.3M");
      apr := Fixed("18.7%");
      activeLPs := "2,000+";
    }

    /** The effect run when the query result changes: nothing while loading or without a list;
        otherwise TVL in millions and the mean APR, and the fixed active-LP count. An empty list
        is present, so it gives $0.0M and `NaN%`. */
    method OnVaults(isLoading: bool, vaults: Option<seq<PoolStats>>)
      modifies this
      ensures isLoading || vaults.None? ==>
                tvl == old(tvl) && apr == old(apr) && activeLPs == old(activeLPs)
      ensures !isLoading && vaults.Some? ==>
                tvl == Millions(TotalTvl(vaults.value) / 1000000.0)
                && apr == AprFigure(vaults.value)
                && activeLPs == "2,000+"
    {
      if isLoading || vaults.None? {
        return;
      }
      var pools := vaults.value;
      tvl := Millions(TotalTvl(pools) / 1000000.0);
      apr := AprFigure(pools);
      activeLPs := "2,000+";
    }
  }
}
