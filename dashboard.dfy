/**
 * The portfolio figures of the dashboard page (src/pages/Dashboard.tsx): the three
 * totals over the investment snapshot, the value-weighted APR estimate, and the
 * reconstructed 30-day performance series. The growth curve, a `Math.sin` formula
 * in the source, is the parameter `growth`; "today" is a day number.
 */
module Dashboard {
  import opened Wrappers
  import opened Records
  import Text

  // ---------------------------------------------------------------- totals

  /** The three fields the totals add up. */
  datatype Measure = CurrentValue | Principal | Profit

  function Amount(inv: Investment, m: Measure): real {
    match m
    case CurrentValue => inv.currentValue
    case Principal => inv.principal
    case Profit => inv.profit
  }

  /** `reduce((sum, inv) => sum + inv.<m>, 0)`, folding from the left. */
  function Total(invs: seq<Investment>, m: Measure): (r: real)
    ensures (forall i :: 0 <= i < |invs| ==> Amount(invs[i], m) >= 0.0) ==> r >= 0.0
  {
    if invs == [] then 0.0 else Total(invs[..|invs| - 1], m) + Amount(invs[|invs| - 1], m)
  }

  /** `investments?.reduce(...) || 0`: missing investments count as no investments. */
  function TotalOf(investments: Option<seq<Investment>>, m: Measure): (r: real)
    ensures investments.None? || investments == Some([]) ==> r == 0.0
    ensures investments.Some? ==> r == Total(investments.value, m)
  {
    match investments
    case None => 0.0
    case Some(invs) => Total(invs, m)
  }

  lemma {:induction false} TotalAppend(a: seq<Investment>, b: seq<Investment>, m: Measure)
    ensures Total(a + b, m) == Total(a, m) + Total(b, m)
    decreases |b|
  {
    if b == [] {
      assert a + b == a;
    } else {
      var ab := a + b;
      assert ab[..|ab| - 1] == a + b[..|b| - 1] && ab[|ab| - 1] == b[|b| - 1];
      TotalAppend(a, b[..|b| - 1], m);
      assert Total(ab, m) == Total(a + b[..|b| - 1], m) + Amount(b[|b| - 1], m);
    }
  }

  /** Each total is the sum of its field over every position, whatever the order of addition. */
  lemma {:induction false} TotalIsSumOfFields(invs: seq<Investment>, m: Measure)
    ensures invs != [] ==> Total(invs, m) == Amount(invs[0], m) + Total(invs[1..], m)
    ensures TotalOf(None, m) == 0.0 && TotalOf(Some([]), m) == 0.0
  {
    if invs != [] {
      TotalAppend([invs[0]], invs[1..], m);
      assert [invs[0]] + invs[1..] == invs;
      assert [invs[0]][..0] == [];
    }
  }

  /** The profit total is read from the stored fields; it equals value minus principal when each
      stored profit does. */
  lemma {:induction false} ConsistentProfitTotal(invs: seq<Investment>)
    requires forall i :: 0 <= i < |invs| ==> invs[i].profit == invs[i].currentValue - invs[i].principal
    ensures Total(invs, Profit) == Total(invs, CurrentValue) - Total(invs, Principal)
  {
    if invs != [] {
      ConsistentProfitTotal(invs[..|invs| - 1]);
    }
  }

  /** A stored profit that disagrees with value minus principal is reported as stored. */
  lemma StoredProfitIsNotRecomputed()
    ensures var invs := [Investment("deep-sui", 100.0, 110.0, 0.0)];
            TotalOf(Some(invs), Profit) == 0.0
            && TotalOf(Some(invs), CurrentValue) - TotalOf(Some(invs), Principal) == 10.0
  {
    var invs := [Investment("deep-sui", 100.0, 110.0, 0.0)];
    assert invs[..0] == [];
  }

  // ---------------------------------------------------------------- weighted APR

  const DeepApr: real := 21.5
  const CetusApr: real := 18.9
  const DefaultApr: real := 15.2

  /** The placeholder APR policy: a case-sensitive substring test on the vault id, "deep" first. */
  function AprEstimate(vaultId: string): (r: real)
    ensures r == DeepApr <==> Text.Contains(vaultId, "deep")
    ensures r == CetusApr <==> !Text.Contains(vaultId, "deep") && Text.Contains(vaultId, "cetus")
    ensures r == DefaultApr <==> !Text.Contains(vaultId, "deep") && !Text.Contains(vaultId, "cetus")
    ensures DefaultApr <= r <= DeepApr
  {
    if Text.Contains(vaultId, "deep") then DeepApr
    else if Text.Contains(vaultId, "cetus") then CetusApr
    else DefaultApr
  }

  /** `totalValueWithAPR`: the sum of value times estimated APR, folding from the left. */
  function ValueWithApr(invs: seq<Investment>): real {
    if invs == [] then 0.0
    else ValueWithApr(invs[..|invs| - 1]) + invs[|invs| - 1].currentValue * AprEstimate(invs[|invs| - 1].vaultId)
  }

  /** `averageAPR`: zero for missing or empty investments or a total value that is not positive;
      otherwise the APR whose product with the total value is the value-weighted sum. */
  function AverageApr(investments: Option<seq<Investment>>): (r: real)
    ensures investments.None? || investments == Some([]) ==> r == 0.0
    ensures investments.Some? && Total(investments.value, CurrentValue) <= 0.0 ==> r == 0.0
    ensures investments.Some? && Total(investments.value, CurrentValue) > 0.0 ==>
              r * Total(investments.value, CurrentValue) == ValueWithApr(investments.value)
  {
    match investments
    case None => 0.0
    case Some(invs) =>
      if |invs| == 0 then 0.0
      else
        var total := Total(invs, CurrentValue);
        if total > 0.0 then ValueWithApr(invs) / total else 0.0
  }

  lemma ScaleMonotone(c: real, x: real, y: real)
    requires c >= 0.0 && x <= y
    ensures c * x <= c * y
  {
  }

  /** A quotient of a sum that lies between `lo` and `hi` times a positive total lies in [lo, hi]. */
  lemma MeanBetween(w: real, total: real, r: real, lo: real, hi: real)
    requires total > 0.0 && lo * total <= w <= hi * total && r * total == w
    ensures lo <= r <= hi
  {
  }

  /** A weighted sum `w` lies between `lo` and `hi` times its total `t`. */
  predicate WeightedWithin(lo: real, hi: real, t: real, w: real) {
    lo * t <= w <= hi * t
  }

  lemma EmptyWithin(lo: real, hi: real, t: real, w: real)
    requires t == 0.0 && w == 0.0
    ensures WeightedWithin(lo, hi, t, w)
  {
  }

  /** One fold step: adding a non-negative value `v` at a rate `a` in [lo, hi] keeps the weighted
      sum between lo and hi times the total; `t2` and `w2` are the new total and sum. */
  lemma WeightedStep(lo: real, hi: real, t: real, w: real, v: real, a: real, t2: real, w2: real)
    requires WeightedWithin(lo, hi, t, w) && v >= 0.0 && lo <= a <= hi
    requires t2 == t + v && w2 == w + v * a
    ensures WeightedWithin(lo, hi, t2, w2)
  {
    ScaleMonotone(v, lo, a);
    ScaleMonotone(v, a, hi);
    assert lo * t2 == lo * t + v * lo;
    assert hi * t2 == hi * t + v * hi;
  }

  /** With no negative value and every estimate in [lo, hi], the weighted sum lies between lo and
      hi times the total value. */
  lemma {:induction false} ValueWithAprWithin(invs: seq<Investment>, lo: real, hi: real)
    requires forall i :: 0 <= i < |invs| ==> invs[i].currentValue >= 0.0 && lo <= AprEstimate(invs[i].vaultId) <= hi
    ensures WeightedWithin(lo, hi, Total(invs, CurrentValue), ValueWithApr(invs))
  {
    var t, w := Total(invs, CurrentValue), ValueWithApr(invs);
    if invs == [] {
      assert t == 0.0 && w == 0.0;
      EmptyWithin(lo, hi, t, w);
    } else {
      var init, last := invs[..|invs| - 1], invs[|invs| - 1];
      assert forall i :: 0 <= i < |init| ==> init[i] == invs[i];
      ValueWithAprWithin(init, lo, hi);
      assert last.currentValue >= 0.0 && lo <= AprEstimate(last.vaultId) <= hi;
      WeightedStep(lo, hi, Total(init, CurrentValue), ValueWithApr(init), last.currentValue,
                   AprEstimate(last.vaultId), t, w);
    }
  }

  /** With no negative value, a positive total and every estimate in [lo, hi], the average APR
      lies in [lo, hi]. */
  lemma AverageAprWithin(invs: seq<Investment>, lo: real, hi: real)
    requires forall i :: 0 <= i < |invs| ==> invs[i].currentValue >= 0.0 && lo <= AprEstimate(invs[i].vaultId) <= hi
    requires Total(invs, CurrentValue) > 0.0
    ensures lo <= AverageApr(Some(invs)) <= hi
  {
    ValueWithAprWithin(invs, lo, hi);
    AverageAprFromSum(invs, lo, hi);
  }

  /** A weighted sum between lo and hi times a positive total gives an average in [lo, hi]. */
  lemma AverageAprFromSum(invs: seq<Investment>, lo: real, hi: real)
    requires Total(invs, CurrentValue) > 0.0
    requires WeightedWithin(lo, hi, Total(invs, CurrentValue), ValueWithApr(invs))
    ensures lo <= AverageApr(Some(invs)) <= hi
  {
    var t, w := Total(invs, CurrentValue), ValueWithApr(invs);
    assert AverageApr(Some(invs)) == w / t;
    QuotientWithin(w, t, lo, hi);
  }

  /** A sum between lo and hi times a positive total, divided by that total, lies in [lo, hi]. */
  lemma QuotientWithin(w: real, t: real, lo: real, hi: real)
    requires t > 0.0 && WeightedWithin(lo, hi, t, w)
    ensures lo <= w / t <= hi
  {
    MeanBetween(w, t, w / t, lo, hi);
  }

  /** A portfolio whose every position has the same estimate reports exactly that estimate, such
      as 18.9 for one held only in `cetus` vaults. */
  lemma UniformAverageApr(invs: seq<Investment>, rate: real)
    requires forall i :: 0 <= i < |invs| ==> invs[i].currentValue >= 0.0 && AprEstimate(invs[i].vaultId) == rate
    requires Total(invs, CurrentValue) > 0.0
    ensures AverageApr(Some(invs)) == rate
  {
    AverageAprWithin(invs, rate, rate);
  }

  /** With no negative value the weighted sum lies between the lowest and highest estimate times the total. */
  lemma ValueWithAprBounds(invs: seq<Investment>)
    requires forall i :: 0 <= i < |invs| ==> invs[i].currentValue >= 0.0
    ensures DefaultApr * Total(invs, CurrentValue) <= ValueWithApr(invs) <= DeepApr * Total(invs, CurrentValue)
  {
    ValueWithAprWithin(invs, DefaultApr, DeepApr);
  }

  /** A value-weighted mean of the estimates: with no negative value and a positive total it lies
      in [15.2, 21.5]. */
  lemma AverageAprBounds(invs: seq<Investment>)
    requires forall i :: 0 <= i < |invs| ==> invs[i].currentValue >= 0.0
    requires Total(invs, CurrentValue) > 0.0
    ensures DefaultApr <= AverageApr(Some(invs)) <= DeepApr
  {
    AverageAprWithin(invs, DefaultApr, DeepApr);
  }

  // ---------------------------------------------------------------- performance series

  /** One day of the chart; `deposit` is absent (`undefined`) when nothing positive was deposited. */
  datatype PerformancePoint = PerformancePoint(date: int, value: real, profit: real, deposit: Option<real>)

  const WindowDays: nat := 30

  predicate IsDepositOn(tx: Transaction, day: int) {
    tx.kind == "deposit" && DayOf(tx.timestamp) == day
  }

  /** `depositsOnThisDay`: the deposits dated `day`, in feed order. */
  function DepositsOn(txs: seq<Transaction>, day: int): (r: seq<Transaction>)
    ensures forall k :: 0 <= k < |r| ==> IsDepositOn(r[k], day)
    ensures forall x :: x in r ==> x in txs
  {
    if txs == [] then []
    else (if IsDepositOn(txs[0], day) then [txs[0]] else []) + DepositsOn(txs[1..], day)
  }

  /** `reduce((sum, tx) => sum + tx.amount, 0)`, folding from the left. */
  function SumAmounts(txs: seq<Transaction>): (r: real)
    ensures (forall x :: x in txs ==> x.amount >= 0.0) ==> r >= 0.0
  {
    if txs == [] then 0.0 else SumAmounts(txs[..|txs| - 1]) + txs[|txs| - 1].amount
  }

  /** `depositAmount`: what was deposited on `day`. */
  function DepositAmount(txs: seq<Transaction>, day: int): (r: real)
    ensures (forall x :: x in txs ==> x.amount >= 0.0) ==> r >= 0.0
    ensures (forall x :: x in txs ==> !IsDepositOn(x, day)) ==> r == 0.0
  {
    var deposits := DepositsOn(txs, day);
    assert (forall x :: x in txs ==> !IsDepositOn(x, day)) ==> deposits == [] by {
      if deposits != [] {
        assert deposits[0] in txs;
      }
    }
    SumAmounts(deposits)
  }

  lemma {:induction false} SumAmountsAppend(a: seq<Transaction>, b: seq<Transaction>)
    ensures SumAmounts(a + b) == SumAmounts(a) + SumAmounts(b)
    decreases |b|
  {
    if b == [] {
      assert a + b == a;
    } else {
      var ab := a + b;
      assert ab[..|ab| - 1] == a + b[..|b| - 1];
      SumAmountsAppend(a, b[..|b| - 1]);
    }
  }

  /** On a one-element feed the filter keeps the element exactly when it is a deposit of that day. */
  lemma DepositsOnOfOne(tx: Transaction, day: int)
    ensures DepositsOn([tx], day) == if IsDepositOn(tx, day) then [tx] else []
  {
    assert [tx][1..] == [];
  }

  /** The filter misses no deposit of the day. */
  lemma {:induction false} DepositsOnComplete(txs: seq<Transaction>, x: Transaction, day: int)
    requires x in txs && IsDepositOn(x, day)
    ensures x in DepositsOn(txs, day)
  {
    if txs[0] != x {
      DepositsOnComplete(txs[1..], x, day);
    }
  }

  lemma {:induction false} DepositsOnAppend(a: seq<Transaction>, b: seq<Transaction>, day: int)
    ensures DepositsOn(a + b, day) == DepositsOn(a, day) + DepositsOn(b, day)
  {
    if a == [] {
      assert a + b == b;
    } else {
      assert (a + b)[0] == a[0] && (a + b)[1..] == a[1..] + b;
      DepositsOnAppend(a[1..], b, day);
    }
  }

  /** The day's amount splits over any split of the feed. */
  lemma DepositAmountAppend(a: seq<Transaction>, b: seq<Transaction>, day: int)
    ensures DepositAmount(a + b, day) == DepositAmount(a, day) + DepositAmount(b, day)
  {
    DepositsOnAppend(a, b, day);
    SumAmountsAppend(DepositsOn(a, day), DepositsOn(b, day));
  }

  /** A single transaction adds its amount to its own day exactly when it is a deposit, and
      nothing to any other day; a withdrawal never adds anything. */
  lemma DepositAmountOfOne(tx: Transaction, day: int)
    ensures DepositAmount([tx], day) == if IsDepositOn(tx, day) then tx.amount else 0.0
    ensures tx.kind == "withdraw" ==> DepositAmount([tx], day) == 0.0
  {
    assert [tx][1..] == [];
    if IsDepositOn(tx, day) {
      assert DepositsOn([tx], day) == [tx];
      assert [tx][..0] == [];
      assert SumAmounts([tx]) == SumAmounts([]) + tx.amount;
      assert |tx.kind| == 7;
    } else {
      assert DepositsOn([tx], day) == [];
    }
  }

  /** Inserting one transaction anywhere in the feed changes a day's amount by exactly its own contribution. */
  lemma DepositAmountInsert(a: seq<Transaction>, tx: Transaction, b: seq<Transaction>, day: int)
    ensures DepositAmount(a + [tx] + b, day)
            == DepositAmount(a + b, day) + (if IsDepositOn(tx, day) then tx.amount else 0.0)
  {
    DepositAmountAppend(a + [tx], b, day);
    DepositAmountAppend(a, [tx], day);
    DepositAmountAppend(a, b, day);
    DepositAmountOfOne(tx, day);
  }

  /** The chart point for day index `i` of the window, `i` = 0 being 29 days ago. */
  function SeriesPoint(txs: seq<Transaction>, totalPrincipal: real, today: int, growth: int -> real, i: int): (p: PerformancePoint)
    ensures p.date == today - (WindowDays - 1) + i
    ensures p.value == totalPrincipal * growth(i) && p.profit == p.value - totalPrincipal
    ensures p.deposit.Some? <==> DepositAmount(txs, p.date) > 0.0
    ensures p.deposit.Some? ==> p.deposit.value == DepositAmount(txs, p.date) && p.deposit.value > 0.0
  {
    var date := today - (WindowDays - 1) + i;
    var baseValue := totalPrincipal * growth(i);
    var depositAmount := DepositAmount(txs, date);
    PerformancePoint(date, baseValue, baseValue - totalPrincipal,
                     if depositAmount > 0.0 then Some(depositAmount) else None)
  }

  /** `performanceData`: nothing until the transactions have loaded, then one point per day of
      the trailing 30-day window, oldest first. */
  method PerformanceData(transactions: Option<seq<Transaction>>, investments: Option<seq<Investment>>,
                         today: int, growth: int -> real)
    returns (data: seq<PerformancePoint>)
    ensures transactions.None? ==> data == []
    ensures transactions.Some? ==>
              |data| == WindowDays
              && forall i :: 0 <= i < |data| ==>
                   data[i] == SeriesPoint(transactions.value, TotalOf(investments, Principal), today, growth, i)
    ensures forall i :: 0 <= i < |data| ==> data[i].date == today - (WindowDays - 1) + i
  {
    if transactions.None? {
      return [];
    }
    var totalPrincipal := TotalOf(investments, Principal);
    var txs := transactions.value;
    data := [];
    var i := 0;
    while i <= WindowDays - 1
      invariant 0 <= i <= WindowDays
      invariant |data| == i
      invariant forall k :: 0 <= k < i ==> data[k] == SeriesPoint(txs, totalPrincipal, today, growth, k)
    {
      data := data + [SeriesPoint(txs, totalPrincipal, today, growth, i)];
      i := i + 1;
    }
  }

  lemma DayOfWithinDay(day: int, ms: int)
    requires 0 <= ms < MillisPerDay
    ensures DayOf(day * MillisPerDay + ms) == day
  {
  }

  /** A 500 deposit at 10:00 today with principal 10000: today's point shows 500, every other
      day of the window shows no deposit. */
  lemma DepositAttribution(today: int, growth: int -> real)
    ensures var tx := Transaction("tx1", "deposit", 500.0, today * MillisPerDay + 36_000_000, "SUI-USDC");
            SeriesPoint([tx], 10000.0, today, growth, WindowDays - 1).deposit == Some(500.0)
            && forall i :: 0 <= i < WindowDays - 1 ==> SeriesPoint([tx], 10000.0, today, growth, i).deposit.None?
  {
    var tx := Transaction("tx1", "deposit", 500.0, today * MillisPerDay + 36_000_000, "SUI-USDC");
    DayOfWithinDay(today, 36_000_000);
    forall day
      ensures DepositAmount([tx], day) == if day == today then 500.0 else 0.0
    {
      DepositAmountOfOne(tx, day);
    }
  }
}
