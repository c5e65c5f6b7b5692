/**
 * The insight carousel (src/components/vault/AIInsightsModule.tsx): a fixed list of
 * four insight cards, an active index that an autoplay tick, the previous/next
 * buttons and the pagination dots move, and the colour picked for a metric's
 * change. The interval timer itself is not modelled: `Tick` is one firing of it.
 */
module AiInsights {
  import opened Wrappers

  datatype InsightType = Performance | Market | Risk | Optimization

  /** `label` is a reserved word in Dafny, so the metric's label is `caption`. */
  datatype Metric = Metric(value: string, change: real, caption: string)

  /** One card; the decorative SVG chart each card carries is not part of the model. */
  datatype Insight = Insight(id: string, title: string, description: string, metric: Option<Metric>, kind: InsightType)

  const AprOptimization := Insight("insight-1", "APR Optimization",
    "Neural models have increased average vault APR by 2.4% over the past 30 days through dynamic rebalancing and position optimization.",
    Some(Metric("+2.4%", 2.4, "APR Increase")), Performance)

  const RiskManagement := Insight("insight-2", "Risk Management",
    "AI safeguards actively protected vaults from 3 major market volatility events last week, preventing potential losses of 1.8%.",
    Some(Metric("-1.8%", -1.8, "Loss Prevention")), Risk)

  const MarketAnalysis := Insight("insight-3", "Market Analysis",
    "Neural networks analyzed 3.2M on-chain data points to predict optimal entry points, achieving 94.3% accuracy in price movement predictions.",
    Some(Metric("94.3%", 94.3, "Prediction Accuracy")), Market)

  const PositionOptimization := Insight("insight-4", "Position Optimization",
    "Deep learning algorithms detected inefficient liquidity provisioning and automatically rebalanced positions for 18.7% better capital utilization.",
    Some(Metric("+18.7%", 18.7, "Capital Efficiency")), Optimization)

  /** `generateInsights`: four fixed cards, `insight-1` to `insight-4`, each with a metric. */
  function GenerateInsights(): (r: seq<Insight>)
    ensures |r| == 4
    ensures r[0].id == "insight-1" && r[1].id == "insight-2" && r[2].id == "insight-3" && r[3].id == "insight-4"
    ensures forall i :: 0 <= i < |r| ==> r[i].metric.Some?
  {
    [AprOptimization, RiskManagement, MarketAnalysis, PositionOptimization]
  }

  /** The four ids are distinct. */
  lemma InsightIdsAreDistinct()
    ensures forall i, j :: 0 <= i < j < |GenerateInsights()| ==> GenerateInsights()[i].id != GenerateInsights()[j].id
  {
  }

  // ---------------------------------------------------------------- index arithmetic

  /** `(prev + 1) % insights.length`. */
  function NextIndex(i: int, n: int): (r: int)
    requires n > 0
    ensures 0 <= r < n
    ensures 0 <= i < n - 1 ==> r == i + 1
    ensures i == n - 1 ==> r == 0
  {
    (i + 1) % n
  }

  /** `prev === 0 ? insights.length - 1 : prev - 1`. */
  function PrevIndex(i: int, n: int): (r: int)
    requires n > 0
    ensures 0 < i <= n ==> r == i - 1 && 0 <= r < n
    ensures i == 0 ==> r == n - 1
  {
    if i == 0 then n - 1 else i - 1
  }

  /** Next then previous, or previous then next, returns to the starting card. */
  lemma NextPrevInverse(i: int, n: int)
    requires n > 0 && 0 <= i < n
    ensures PrevIndex(NextIndex(i, n), n) == i
    ensures NextIndex(PrevIndex(i, n), n) == i
  {
  }

  /** The index after `k` ticks or next-clicks from `i`. */
  function Iterate(i: int, n: int, k: nat): int
    requires n > 0
  {
    if k == 0 then i else NextIndex(Iterate(i, n, k - 1), n)
  }

  /** Up to one full round, `k` steps forward from `i` land on `i + k`, wrapped once past the end. */
  lemma {:induction false} NextSteps(i: int, n: int, k: nat)
    requires n > 0 && 0 <= i < n && k <= n
    ensures Iterate(i, n, k) == if i + k < n then i + k else i + k - n
  {
    if k > 0 {
      NextSteps(i, n, k - 1);
    }
  }

  /** `n` steps forward from any card come back to it: the carousel cycles. */
  lemma FullCycle(i: int, n: int)
    requires n > 0 && 0 <= i < n
    ensures Iterate(i, n, n) == i
  {
    NextSteps(i, n, n);
  }

  // ---------------------------------------------------------------- metric colour

  /** `getMetricColor`: the colour class by the sign of the change. */
  function MetricColor(change: real): (r: string)
    ensures r == "text-emerald" <==> change > 0.0
    ensures r == "text-red-500" <==> change < 0.0
    ensures r == "text-white" <==> change == 0.0
  {
    if change > 0.0 then "text-emerald"
    else if change < 0.0 then "text-red-500"
    else "text-white"
  }

  // ---------------------------------------------------------------- component state

  /** The `insights`, `activeInsight` and `autoplay` state of the module. */
  class Carousel {
    const insights: seq<Insight>
    var activeInsight: int
    var autoplay: bool

    ghost predicate Valid()
      reads this
    {
      |insights| > 0 && 0 <= activeInsight < |insights|
    }

    constructor ()
      ensures Valid()
      ensures insights == GenerateInsights() && activeInsight == 0 && autoplay
    {
      insights := GenerateInsights();
      activeInsight := 0;
      autoplay := true;
    }

    /** One firing of the seven-second interval, which only runs while autoplay is on. */
    method Tick()
      requires Valid()
      modifies this
      ensures Valid() && autoplay == old(autoplay)
      ensures activeInsight == if old(autoplay) then NextIndex(old(activeInsight), |insights|) else old(activeInsight)
    {
      if autoplay {
        activeInsight := NextIndex(activeInsight, |insights|);
      }
    }

    /** `handleNext`: stops autoplay and moves one card forward, wrapping to the first. */
    method HandleNext()
      requires Valid()
      modifies this
      ensures Valid() && !autoplay
      ensures activeInsight == NextIndex(old(activeInsight), |insights|)
    {
      autoplay := false;
      activeInsight := NextIndex(activeInsight, |insights|);
    }

    /** `handlePrev`: stops autoplay and moves one card back, wrapping to the last. */
    method HandlePrev()
      requires Valid()
      modifies this
      ensures Valid() && !autoplay
      ensures activeInsight == PrevIndex(old(activeInsight), |insights|)
    {
      autoplay := false;
      activeInsight := PrevIndex(activeInsight, |insights|);
    }

    /** A click on pagination dot `index`; there is one dot per card. */
    method SelectDot(index: int)
      requires Valid() && 0 <= index < |insights|
      modifies this
      ensures Valid() && !autoplay && activeInsight == index
    {
      autoplay := false;
      activeInsight := index;
    }
  }
}
