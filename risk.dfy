/** The risk analyser page for user 1017: the threshold rules of its eight
    sections, the row filters behind them, the ordered recommendation list,
    the JSON note file, and the cells of the downloadable report. */
module Risk {
  import opened Wrappers
  import Seqs
  import Stats
  import Grouping
  import Text
  import Sanitize
  import Notes
  import Banners

  // ---------------------------------------------------------------------
  // The table
  // ---------------------------------------------------------------------

  /** The only user the page analyses. */
  const UserId: int := 1017

  /** One row of the risk dataset, restricted to the columns the page reads.
      `day` is the calendar date of `transaction_time` as a day number, and
      `securityAlertType` is `None` where the cell is missing. */
  datatype Txn = Txn(
    userId: int,
    utilizationPercent: real,
    loanPayment: real,
    monthlyIncome: real,
    groceriesSpent: real,
    groceriesBudget: real,
    isLarge: bool,
    isForeign: bool,
    isUnusualTime: bool,
    accountBalance: real,
    monthlyExpenses: real,
    securityAlertType: Option<string>,
    emiCount: real,
    day: int)

  predicate OfUser(t: Txn)
  {
    t.userId == UserId
  }

  /** `df[df["user_id"] == 1017]`. */
  function UserRows(all: seq<Txn>): seq<Txn>
  {
    Seqs.Filter(all, OfUser)
  }

  /** The page sees exactly the rows of user 1017, in file order. */
  lemma UserRowsSpec(all: seq<Txn>)
    ensures forall i :: 0 <= i < |UserRows(all)| ==> UserRows(all)[i].userId == UserId
    ensures forall i :: 0 <= i < |all| && all[i].userId == UserId ==> all[i] in UserRows(all)
    ensures Seqs.IsSubsequence(UserRows(all), all)
    ensures |UserRows(all)| == Seqs.Count(all, OfUser)
  {
    Seqs.FilterMembers(all, OfUser);
    Seqs.FilterIsSubsequence(all, OfUser);
    Seqs.FilterLength(all, OfUser);
  }

  // ---------------------------------------------------------------------
  // 1. Credit utilisation
  // ---------------------------------------------------------------------

  function Utilizations(rows: seq<Txn>): seq<real>
  {
    Seqs.Map(rows, (t: Txn) => t.utilizationPercent)
  }

  function AverageUtilization(rows: seq<Txn>): real
    requires |rows| > 0
  {
    Stats.Mean(Utilizations(rows))
  }

  /** `min(avg_util / 100, 1.0)`, the value of the progress bar. */
  function Progress(avg: real): real
  {
    var fraction := avg / 100.0;
    if fraction <= 1.0 then fraction else 1.0
  }

  /** The bar never passes full; below 100% it is the utilisation as a
      fraction, from 100% on it is full, and it is not negative for a
      non-negative utilisation. */
  lemma ProgressSpec(avg: real)
    ensures Progress(avg) <= 1.0
    ensures avg <= 100.0 ==> Progress(avg) * 100.0 == avg
    ensures avg >= 100.0 ==> Progress(avg) == 1.0
    ensures avg >= 0.0 ==> Progress(avg) >= 0.0
  {
  }

  const HighUtilization: string := [Banners.WarningSign, Banners.Vs16] + " High credit utilization." + " Try to keep it under 30%."
  const HealthyUtilization: string := [Banners.CheckMark] + " Your credit utilization is" + " within the healthy range."

  function UtilizationBanner(rows: seq<Txn>): Banners.Banner
    requires |rows| > 0
  {
    if AverageUtilization(rows) > 30.0 then Banners.Warning(HighUtilization)
    else Banners.Success(HealthyUtilization)
  }

  /** The warning shows exactly when the utilisation column sums to more than
      30 per row. */
  lemma UtilizationWarningIff(rows: seq<Txn>)
    requires |rows| > 0
    ensures UtilizationBanner(rows).Warning? <==> Stats.Sum(Utilizations(rows)) > 30.0 * |rows| as real
    ensures !UtilizationBanner(rows).Warning? ==> UtilizationBanner(rows) == Banners.Success(HealthyUtilization)
  {
    var n := |rows| as real;
    assert |Utilizations(rows)| == |rows|;
    Stats.ScaleOrder(30.0, AverageUtilization(rows), n);
    assert 30.0 * n == n * 30.0;
  }

  // ---------------------------------------------------------------------
  // 2. Loan repayment
  // ---------------------------------------------------------------------

  /** Python would divide by zero otherwise. */
  ghost predicate IncomesNonZero(rows: seq<Txn>)
  {
    forall i :: 0 <= i < |rows| ==> rows[i].monthlyIncome != 0.0
  }

  /** The `repayment_ratio` column: payment over income, row by row. */
  function RepaymentRatios(rows: seq<Txn>): (ratios: seq<real>)
    requires IncomesNonZero(rows)
    ensures |ratios| == |rows|
    ensures forall i :: 0 <= i < |rows| ==> ratios[i] * rows[i].monthlyIncome == rows[i].loanPayment
  {
    seq(|rows|, i requires 0 <= i < |rows| => rows[i].loanPayment / rows[i].monthlyIncome)
  }

  function AverageRatio(rows: seq<Txn>): real
    requires |rows| > 0 && IncomesNonZero(rows)
  {
    Stats.Mean(RepaymentRatios(rows))
  }

  const HighBurden: string := [Banners.Siren] + " High loan repayment burden!"
  const ManageableBurden: string := [Banners.CheckMark] + " Loan repayment burden" + " is manageable."

  function RepaymentBanner(rows: seq<Txn>): Banners.Banner
    requires |rows| > 0 && IncomesNonZero(rows)
  {
    if AverageRatio(rows) > 0.4 then Banners.Error(HighBurden) else Banners.Success(ManageableBurden)
  }

  /** The burden error shows exactly when the ratios sum to more than 0.4 per
      row. */
  lemma RepaymentErrorIff(rows: seq<Txn>)
    requires |rows| > 0 && IncomesNonZero(rows)
    ensures RepaymentBanner(rows).Error? <==> Stats.Sum(RepaymentRatios(rows)) > 0.4 * |rows| as real
    ensures !RepaymentBanner(rows).Error? ==> RepaymentBanner(rows) == Banners.Success(ManageableBurden)
  {
    var n := |rows| as real;
    Stats.ScaleOrder(0.4, AverageRatio(rows), n);
    assert 0.4 * n == n * 0.4;
  }

  // ---------------------------------------------------------------------
  // 3. Over-budget spending
  // ---------------------------------------------------------------------

  /** The `over_budget` column of one row. */
  predicate OverBudget(t: Txn)
  {
    t.groceriesSpent > t.groceriesBudget
  }

  /** `df["over_budget"].sum()`. */
  function OverBudgetCount(rows: seq<Txn>): nat
  {
    Seqs.Count(rows, OverBudget)
  }

  /** The count lies between 0 and the number of rows, is the number of rows
      the mask keeps, and is positive exactly when some row spent more than
      its budget. */
  lemma OverBudgetCountSpec(rows: seq<Txn>)
    ensures OverBudgetCount(rows) <= |rows|
    ensures OverBudgetCount(rows) == |Seqs.Filter(rows, OverBudget)|
    ensures OverBudgetCount(rows) > 0 <==> exists i :: 0 <= i < |rows| && rows[i].groceriesSpent > rows[i].groceriesBudget
  {
    Seqs.FilterLength(rows, OverBudget);
    Seqs.CountPositive(rows, OverBudget);
    assert forall i :: 0 <= i < |rows| ==> (OverBudget(rows[i]) <==> rows[i].groceriesSpent > rows[i].groceriesBudget);
  }

  const WithinGroceryBudget: string := [Banners.CheckMark] + " You're staying within" + " your grocery budget."

  /** The warning names the count and the number of rows. */
  function OverBudgetBanner(rows: seq<Txn>): Banners.Banner
  {
    var n := OverBudgetCount(rows);
    if n > 0 then
      Banners.Warning([Banners.WarningSign, Banners.Vs16] + " You exceeded your groceries budget in "
        + Text.NatToString(n) + " out of " + Text.NatToString(|rows|) + " transactions.")
    else Banners.Success(WithinGroceryBudget)
  }

  /** The warning shows exactly when some row is over budget. */
  lemma OverBudgetWarningIff(rows: seq<Txn>)
    ensures OverBudgetBanner(rows).Warning? <==> exists i :: 0 <= i < |rows| && OverBudget(rows[i])
  {
    Seqs.CountPositive(rows, OverBudget);
  }

  // ---------------------------------------------------------------------
  // 4. Income volatility
  // ---------------------------------------------------------------------

  function Incomes(rows: seq<Txn>): seq<real>
  {
    Seqs.Map(rows, (t: Txn) => t.monthlyIncome)
  }

  /** `income_std / income_mean`; the standard deviation is an input. */
  function VolatilityRatio(std: real, mean: real): real
    requires mean != 0.0
  {
    std / mean
  }

  const VariableIncome: string := [Banners.WarningSign, Banners.Vs16] + " Your income is highly variable."
  const StableIncome: string := [Banners.CheckMark] + " Your income appears stable."

  function VolatilityBanner(ratio: real): Banners.Banner
  {
    if ratio > 0.25 then Banners.Warning(VariableIncome) else Banners.Success(StableIncome)
  }

  /** For a positive mean income the warning shows exactly when the deviation
      exceeds a quarter of the mean. */
  lemma VolatilityWarningIff(std: real, mean: real)
    requires mean > 0.0
    ensures VolatilityBanner(VolatilityRatio(std, mean)).Warning? <==> std > 0.25 * mean
  {
    Stats.ScaleOrder(0.25, VolatilityRatio(std, mean), mean);
  }

  // ---------------------------------------------------------------------
  // 5. Anomalies and 8. high-risk days
  // ---------------------------------------------------------------------

  /** `is_large | is_foreign | is_unusual_time`. */
  predicate Anomalous(t: Txn)
  {
    t.isLarge || t.isForeign || t.isUnusualTime
  }

  /** `anomaly_df`. */
  function Anomalies(rows: seq<Txn>): seq<Txn>
  {
    Seqs.Filter(rows, Anomalous)
  }

  /** The anomaly table holds exactly the anomalous rows, in order. */
  lemma AnomaliesSpec(rows: seq<Txn>)
    ensures Seqs.IsSubsequence(Anomalies(rows), rows)
    ensures forall i :: 0 <= i < |Anomalies(rows)| ==>
      Anomalies(rows)[i].isLarge || Anomalies(rows)[i].isForeign || Anomalies(rows)[i].isUnusualTime
    ensures forall i :: 0 <= i < |rows| && Anomalous(rows[i]) ==> rows[i] in Anomalies(rows)
    ensures |Anomalies(rows)| == Seqs.Count(rows, Anomalous)
  {
    Seqs.FilterIsSubsequence(rows, Anomalous);
    Seqs.FilterMembers(rows, Anomalous);
    Seqs.FilterLength(rows, Anomalous);
  }

  const NoSuspicious: string := [Banners.CheckMark] + " No suspicious transactions" + " detected."

  function AnomalyBanner(rows: seq<Txn>): Banners.Banner
  {
    var a := Anomalies(rows);
    if a != [] then
      Banners.Error([Banners.Siren] + " " + Text.NatToString(|a|) + " suspicious transactions detected!")
    else Banners.Success(NoSuspicious)
  }

  /** The error box, with the number of anomalous rows, appears exactly when
      some row is anomalous; otherwise the page shows the all-clear box. */
  lemma AnomalyBannerIff(rows: seq<Txn>)
    ensures AnomalyBanner(rows).Error? <==> exists i :: 0 <= i < |rows| && Anomalous(rows[i])
    ensures var n := Text.NatToString(Seqs.Count(rows, Anomalous));
      AnomalyBanner(rows).Error? ==>
        AnomalyBanner(rows).text == [Banners.Siren] + " " + n + " suspicious transactions detected!"
    ensures !AnomalyBanner(rows).Error? ==> AnomalyBanner(rows) == Banners.Success(NoSuspicious)
  {
    AnomaliesSpec(rows);
    Seqs.CountPositive(rows, Anomalous);
  }

  predicate OnDay(t: Txn, d: int)
  {
    t.day == d
  }

  predicate AnomalousOnDay(t: Txn, d: int)
  {
    Anomalous(t) && t.day == d
  }

  /** The number of anomalous rows dated `d`. */
  function DayAnomalies(rows: seq<Txn>, d: int): nat
  {
    Seqs.Count(rows, t => AnomalousOnDay(t, d))
  }

  /** One (date, 1) pair per anomalous row: `groupby("date_only").size()`
      sums these. */
  function DayOnes(anomalies: seq<Txn>): seq<(int, real)>
  {
    seq(|anomalies|, i requires 0 <= i < |anomalies| => (anomalies[i].day, 1.0))
  }

  /** `daily_anomalies`: each date of an anomalous row with its number of
      anomalous rows. */
  function DailyAnomalies(rows: seq<Txn>): seq<(int, real)>
  {
    Grouping.Totals(DayOnes(Anomalies(rows)))
  }

  predicate MoreThanTwo(entry: (int, real))
  {
    entry.1 > 2.0
  }

  /** `daily_anomalies[daily_anomalies > 2]`. The `groupby` index is sorted
      by date, so the table lists the days in ascending date order; the
      model sorts after filtering, which gives the same sequence. */
  function HighRiskDays(rows: seq<Txn>): seq<(int, real)>
  {
    Grouping.SortByKey(KeptDays(rows))
  }

  /** The daily counts above two, in the order of the daily counts. */
  function KeptDays(rows: seq<Txn>): seq<(int, real)>
  {
    Seqs.Filter(DailyAnomalies(rows), MoreThanTwo)
  }

  /** Summing the ones of a date counts the rows of that date. */
  lemma {:induction false} DayOnesSum(a: seq<Txn>, d: int)
    ensures Grouping.SumFor(DayOnes(a), d) == Seqs.Count(a, t => OnDay(t, d)) as real
    decreases |a|
  {
    if a != [] {
      DayOnesSum(a[1..], d);
      assert DayOnes(a)[1..] == DayOnes(a[1..]);
    }
  }

  /** Counting the rows of a date in the anomaly table counts the anomalous
      rows of that date. */
  lemma DayCountOfAnomalies(rows: seq<Txn>, d: int)
    ensures Seqs.Count(Anomalies(rows), t => OnDay(t, d)) == DayAnomalies(rows, d)
  {
    Seqs.FilterFilter(rows, Anomalous, t => OnDay(t, d), t => AnomalousOnDay(t, d));
    Seqs.FilterLength(Anomalies(rows), t => OnDay(t, d));
    Seqs.FilterLength(rows, t => AnomalousOnDay(t, d));
  }

  /** Every entry of the daily counts is its date's number of anomalous
      rows. */
  lemma DailyAnomaliesCounts(rows: seq<Txn>)
    ensures forall i :: 0 <= i < |DailyAnomalies(rows)| ==>
      DailyAnomalies(rows)[i].1 == DayAnomalies(rows, DailyAnomalies(rows)[i].0) as real
  {
    var ones := DayOnes(Anomalies(rows));
    var daily := DailyAnomalies(rows);
    Grouping.TotalsSpec(ones);
    forall i | 0 <= i < |daily| ensures daily[i].1 == DayAnomalies(rows, daily[i].0) as real {
      DayOnesSum(Anomalies(rows), daily[i].0);
      DayCountOfAnomalies(rows, daily[i].0);
    }
  }

  /** A date with an anomalous row has an entry in the daily counts. */
  lemma DailyAnomaliesCover(rows: seq<Txn>, d: int)
    requires DayAnomalies(rows, d) > 0
    ensures Grouping.Occurs(DailyAnomalies(rows), d)
  {
    var a := Anomalies(rows);
    var ones := DayOnes(a);
    DayCountOfAnomalies(rows, d);
    Seqs.CountPositive(a, t => OnDay(t, d));
    var i :| 0 <= i < |a| && OnDay(a[i], d);
    assert ones[i].0 == d;
    Grouping.TotalsSpec(ones);
  }

  /** The high-risk days are exactly the dates with more than two anomalous
      rows, each with its count, each date once, in ascending date order. */
  lemma HighRiskDaysSpec(rows: seq<Txn>)
    ensures forall i :: 0 <= i < |HighRiskDays(rows)| ==>
      HighRiskDays(rows)[i].1 == DayAnomalies(rows, HighRiskDays(rows)[i].0) as real
      && DayAnomalies(rows, HighRiskDays(rows)[i].0) > 2
    ensures forall d :: DayAnomalies(rows, d) > 2 ==> Grouping.Occurs(HighRiskDays(rows), d)
    ensures Grouping.DistinctKeys(HighRiskDays(rows))
    ensures forall i, j :: 0 <= i < j < |HighRiskDays(rows)| ==> HighRiskDays(rows)[i].0 < HighRiskDays(rows)[j].0
  {
    var kept, high := KeptDays(rows), HighRiskDays(rows);
    KeptDaysCounts(rows);
    forall i | 0 <= i < |high|
      ensures high[i].1 == DayAnomalies(rows, high[i].0) as real && DayAnomalies(rows, high[i].0) > 2
    {
      assert high[i] in multiset(kept);
    }
    forall d | DayAnomalies(rows, d) > 2 ensures Grouping.Occurs(high, d) {
      KeptDaysCover(rows, d);
      Grouping.SameKeys(kept, high);
    }
    KeptDaysDistinct(rows);
    Grouping.SortByKeyStrict(kept);
  }

  /** Every kept day carries its own count, which is above two. */
  lemma KeptDaysCounts(rows: seq<Txn>)
    ensures forall e :: e in KeptDays(rows) ==> e.1 == DayAnomalies(rows, e.0) as real && DayAnomalies(rows, e.0) > 2
  {
    var daily := DailyAnomalies(rows);
    DailyAnomaliesCounts(rows);
    Seqs.FilterMembers(daily, MoreThanTwo);
    forall e | e in KeptDays(rows) ensures e.1 == DayAnomalies(rows, e.0) as real && DayAnomalies(rows, e.0) > 2 {
      var k :| 0 <= k < |KeptDays(rows)| && KeptDays(rows)[k] == e;
      var j :| 0 <= j < |daily| && daily[j] == e;
    }
  }

  /** A date with more than two anomalous rows is kept. */
  lemma KeptDaysCover(rows: seq<Txn>, d: int)
    requires DayAnomalies(rows, d) > 2
    ensures Grouping.Occurs(KeptDays(rows), d)
  {
    var daily := DailyAnomalies(rows);
    DailyAnomaliesCounts(rows);
    DailyAnomaliesCover(rows, d);
    Seqs.FilterMembers(daily, MoreThanTwo);
    var j :| 0 <= j < |daily| && daily[j].0 == d;
    assert MoreThanTwo(daily[j]);
    var k :| 0 <= k < |KeptDays(rows)| && KeptDays(rows)[k] == daily[j];
  }

  /** No date is kept twice. */
  lemma KeptDaysDistinct(rows: seq<Txn>)
    ensures Grouping.DistinctKeys(KeptDays(rows))
  {
    Grouping.TotalsSpec(DayOnes(Anomalies(rows)));
    Grouping.FilterKeepsDistinct(DailyAnomalies(rows), MoreThanTwo);
  }

  // ---------------------------------------------------------------------
  // 6. Account balance
  // ---------------------------------------------------------------------

  function MonthlyExpenses(rows: seq<Txn>): seq<real>
  {
    Seqs.Map(rows, (t: Txn) => t.monthlyExpenses)
  }

  function AverageExpense(rows: seq<Txn>): real
    requires |rows| > 0
  {
    Stats.Mean(MonthlyExpenses(rows))
  }

  predicate BelowExpense(t: Txn, avg: real)
  {
    t.accountBalance < avg
  }

  /** `df[df["account_balance"] < avg_expense]`. */
  function LowBalanceRows(rows: seq<Txn>): seq<Txn>
    requires |rows| > 0
  {
    var avg := AverageExpense(rows);
    Seqs.Filter(rows, t => BelowExpense(t, avg))
  }

  /** The low-balance rows are exactly the rows whose balance is below the
      mean monthly expenses, in order. */
  lemma LowBalanceRowsSpec(rows: seq<Txn>)
    requires |rows| > 0
    ensures forall i :: 0 <= i < |LowBalanceRows(rows)| ==>
      LowBalanceRows(rows)[i].accountBalance < AverageExpense(rows)
    ensures forall i :: 0 <= i < |rows| && rows[i].accountBalance < AverageExpense(rows) ==>
      rows[i] in LowBalanceRows(rows)
    ensures Seqs.IsSubsequence(LowBalanceRows(rows), rows)
    ensures var avg := AverageExpense(rows);
      |LowBalanceRows(rows)| == Seqs.Count(rows, t => BelowExpense(t, avg))
  {
    var avg := AverageExpense(rows);
    Seqs.FilterMembers(rows, t => BelowExpense(t, avg));
    Seqs.FilterIsSubsequence(rows, t => BelowExpense(t, avg));
    Seqs.FilterLength(rows, t => BelowExpense(t, avg));
  }

  const SufficientBalance: string := [Banners.CheckMark] + " Account balance is generally" + " sufficient."

  function LowBalanceBanner(rows: seq<Txn>): Banners.Banner
    requires |rows| > 0
  {
    var low := LowBalanceRows(rows);
    if low != [] then
      Banners.Warning([Banners.WarningSign, Banners.Vs16] + " Low balance detected in "
        + Text.NatToString(|low|) + " records. You may not cover monthly expenses.")
    else Banners.Success(SufficientBalance)
  }

  /** The warning, with the number of low-balance records, appears exactly
      when some balance is below the mean monthly expenses; otherwise the
      page shows the sufficient-balance box. */
  lemma LowBalanceWarningIff(rows: seq<Txn>)
    requires |rows| > 0
    ensures LowBalanceBanner(rows).Warning? <==>
      exists i :: 0 <= i < |rows| && rows[i].accountBalance < AverageExpense(rows)
    ensures var n := Text.NatToString(|LowBalanceRows(rows)|);
      LowBalanceBanner(rows).Warning? ==>
        LowBalanceBanner(rows).text == [Banners.WarningSign, Banners.Vs16] + " Low balance detected in "
          + n + " records. You may not cover monthly expenses."
    ensures !LowBalanceBanner(rows).Warning? ==> LowBalanceBanner(rows) == Banners.Success(SufficientBalance)
  {
    var avg := AverageExpense(rows);
    LowBalanceRowsSpec(rows);
    Seqs.CountPositive(rows, t => BelowExpense(t, avg));
  }

  // ---------------------------------------------------------------------
  // 7. Security alerts
  // ---------------------------------------------------------------------

  predicate HasAlert(t: Txn)
  {
    t.securityAlertType.Some?
  }

  /** `df[df["security_alert_type"].notnull()]`. */
  function Alerts(rows: seq<Txn>): seq<Txn>
  {
    Seqs.Filter(rows, HasAlert)
  }

  /** The distinct alert types. */
  function AlertTypes(rows: seq<Txn>): set<string>
  {
    set t | t in Alerts(rows) && t.securityAlertType.Some? :: t.securityAlertType.value
  }

  /** `alerts["security_alert_type"].nunique()`. */
  function UniqueAlerts(rows: seq<Txn>): nat
  {
    |AlertTypes(rows)|
  }

  /** There are alert types exactly when some row has an alert, so the
      report's `nunique() if not alerts.empty else 0` is always the number of
      distinct types. */
  lemma UniqueAlertsSpec(rows: seq<Txn>)
    ensures UniqueAlerts(rows) > 0 <==> Alerts(rows) != []
    ensures (if Alerts(rows) != [] then UniqueAlerts(rows) else 0) == UniqueAlerts(rows)
    ensures forall i :: 0 <= i < |rows| && rows[i].securityAlertType.Some? ==>
      rows[i].securityAlertType.value in AlertTypes(rows)
  {
    var a := Alerts(rows);
    Seqs.FilterMembers(rows, HasAlert);
    if a != [] {
      assert a[0] in a && HasAlert(a[0]);
      assert a[0].securityAlertType.value in AlertTypes(rows);
    }
  }

  // ---------------------------------------------------------------------
  // 8. EMI load
  // ---------------------------------------------------------------------

  function EmiCounts(rows: seq<Txn>): seq<real>
  {
    Seqs.Map(rows, (t: Txn) => t.emiCount)
  }

  function AverageEmi(rows: seq<Txn>): real
    requires |rows| > 0
  {
    Stats.Mean(EmiCounts(rows))
  }

  function EmiBanner(avg: real): Banners.Banner
  {
    if avg > 5.0 then
      Banners.Error([Banners.Siren] + " You have " + Text.Fixed(avg, 1) + " EMIs on average "
        + [Sanitize.EnDash] + " high risk of overload.")
    else Banners.Success([Banners.CheckMark] + " EMI load is within a healthy range: " + Text.Fixed(avg, 1))
  }

  /** The overload error appears exactly when the mean EMI count exceeds 5,
      that is when the EMI counts total more than 5 per row; each box carries
      the mean to one decimal place. */
  lemma EmiErrorIff(rows: seq<Txn>)
    requires |rows| > 0
    ensures EmiBanner(AverageEmi(rows)).Error? <==> AverageEmi(rows) > 5.0
    ensures EmiBanner(AverageEmi(rows)).Error? <==> Stats.Sum(EmiCounts(rows)) > 5.0 * |rows| as real
    ensures AverageEmi(rows) > 5.0 ==> EmiBanner(AverageEmi(rows)) == Banners.Error([Banners.Siren] + " You have "
      + Text.Fixed(AverageEmi(rows), 1) + " EMIs on average " + [Sanitize.EnDash] + " high risk of overload.")
    ensures AverageEmi(rows) <= 5.0 ==> EmiBanner(AverageEmi(rows)) == Banners.Success([Banners.CheckMark]
      + " EMI load is within a healthy range: " + Text.Fixed(AverageEmi(rows), 1))
  {
    var n := |rows| as real;
    assert |EmiCounts(rows)| == |rows|;
    Stats.ScaledCompare(5.0, AverageEmi(rows), n, 5.0 * n, Stats.Sum(EmiCounts(rows)));
  }

  // ---------------------------------------------------------------------
  // Smart bank recommendations
  // ---------------------------------------------------------------------

  /** The figures the recommendations read. */
  datatype RiskFigures = RiskFigures(
    avgUtil: real,
    avgRatio: real,
    volatility: real,
    lowBalanceCount: nat,
    avgEmi: real)

  /** The page's figures for the table `rows` and the income deviation
      `std`. */
  function FiguresOf(rows: seq<Txn>, std: real): RiskFigures
    requires |rows| > 0 && IncomesNonZero(rows) && Stats.Mean(Incomes(rows)) != 0.0
  {
    RiskFigures(
      AverageUtilization(rows),
      AverageRatio(rows),
      VolatilityRatio(std, Stats.Mean(Incomes(rows))),
      |LowBalanceRows(rows)|,
      AverageEmi(rows))
  }

  /** U+1F504, U+1F4A1, U+1F4C9, U+1F3E6 and U+1F4C6, the symbols that open
      the five recommendations. */
  const Arrows: char := '\U{1F504}'
  const Bulb: char := '\U{1F4A1}'
  const ChartDown: char := '\U{1F4C9}'
  const Bank: char := '\U{1F3E6}'
  const Calendar: char := '\U{1F4C6}'

  const LowerUtilization: string := [Arrows] + " Consider lowering your credit" + " utilization below 30%."
  const ReviseLoans: string := [Bulb] + " Re-evaluate your loan structure" + " or seek financial counseling."
  const EmergencyFund: string := [ChartDown] + " Set up an emergency fund due" + " to income fluctuations."
  const MinimumBalance: string := [Bank] + " Maintain a minimum balance" + " to avoid penalties."
  const ConsolidateEmis: string := [Calendar] + " Too many EMIs " + [Sanitize.EnDash] + " consolidate loans if possible."

  /** All five recommendations in the order the page considers them. */
  const AllRecommendations: seq<string> := [LowerUtilization, ReviseLoans, EmergencyFund, MinimumBalance, ConsolidateEmis]

  /** `xs` when `b` holds, nothing otherwise. */
  function When(b: bool, xs: seq<string>): seq<string>
  {
    if b then xs else []
  }

  /** The recommendation list for figures `f`. */
  function Recommendations(f: RiskFigures): seq<string>
  {
    When(f.avgUtil > 30.0, [LowerUtilization])
    + When(f.avgRatio > 0.4, [ReviseLoans])
    + When(f.volatility > 0.25, [EmergencyFund])
    + When(f.lowBalanceCount > 5, [MinimumBalance])
    + When(f.avgEmi > 5.0, [ConsolidateEmis])
  }

  /** The `recommendations.append` sequence. */
  method BuildRecommendations(f: RiskFigures) returns (recommendations: seq<string>)
    ensures recommendations == Recommendations(f)
  {
    recommendations := [];
    if f.avgUtil > 30.0 {
      recommendations := recommendations + [LowerUtilization];
    }
    ghost var upTo := When(f.avgUtil > 30.0, [LowerUtilization]);
    assert recommendations == upTo;
    if f.avgRatio > 0.4 {
      recommendations := recommendations + [ReviseLoans];
    }
    upTo := upTo + When(f.avgRatio > 0.4, [ReviseLoans]);
    assert recommendations == upTo;
    if f.volatility > 0.25 {
      recommendations := recommendations + [EmergencyFund];
    }
    upTo := upTo + When(f.volatility > 0.25, [EmergencyFund]);
    assert recommendations == upTo;
    if f.lowBalanceCount > 5 {
      recommendations := recommendations + [MinimumBalance];
    }
    upTo := upTo + When(f.lowBalanceCount > 5, [MinimumBalance]);
    assert recommendations == upTo;
    if f.avgEmi > 5.0 {
      recommendations := recommendations + [ConsolidateEmis];
    }
  }

  /** The five recommendations open with different symbols, so they are five
      different texts. */
  lemma RecommendationsDistinct()
    ensures forall i, j :: 0 <= i < j < |AllRecommendations| ==> AllRecommendations[i] != AllRecommendations[j]
  {
    assert LowerUtilization[0] == Arrows && ReviseLoans[0] == Bulb && EmergencyFund[0] == ChartDown;
    assert MinimumBalance[0] == Bank && ConsolidateEmis[0] == Calendar;
  }

  /** Membership in five optional pieces. */
  lemma MemberOfFive(x: string, a: seq<string>, c: seq<bool>)
    requires |a| == 5 && |c| == 5
    ensures x in When(c[0], [a[0]]) + When(c[1], [a[1]]) + When(c[2], [a[2]]) + When(c[3], [a[3]]) + When(c[4], [a[4]])
      <==> exists k :: 0 <= k < 5 && c[k] && x == a[k]
  {
    var s := When(c[0], [a[0]]) + When(c[1], [a[1]]) + When(c[2], [a[2]]) + When(c[3], [a[3]]) + When(c[4], [a[4]]);
    if x in s {
      if c[0] && x == a[0] {} else if c[1] && x == a[1] {} else if c[2] && x == a[2] {}
      else if c[3] && x == a[3] {} else {
        assert c[4] && x == a[4];
      }
    }
    if exists k :: 0 <= k < 5 && c[k] && x == a[k] {
      var k :| 0 <= k < 5 && c[k] && x == a[k];
      assert x in When(c[k], [a[k]]);
    }
  }

  /** Three optional pieces keep the order of their candidates. */
  lemma ThreeInOrder(a2: string, a3: string, a4: string, c2: bool, c3: bool, c4: bool)
    ensures Seqs.IsSubsequence(When(c2, [a2]) + (When(c3, [a3]) + When(c4, [a4])), [a2, a3, a4])
  {
    var w2, w3, w4 := When(c2, [a2]), When(c3, [a3]), When(c4, [a4]);
    Seqs.PrependOptional(w4, a4, [], []);
    assert w4 + [] == w4 && [a4] + [] == [a4];
    Seqs.PrependOptional(w3, a3, w4, [a4]);
    Seqs.PrependOptional(w2, a2, w3 + w4, [a3, a4]);
  }

  /** Five optional pieces keep the order of the five candidates. */
  lemma FiveInOrder(a0: string, a1: string, a2: string, a3: string, a4: string,
                    c0: bool, c1: bool, c2: bool, c3: bool, c4: bool)
    ensures Seqs.IsSubsequence(
      When(c0, [a0]) + When(c1, [a1]) + When(c2, [a2]) + When(c3, [a3]) + When(c4, [a4]),
      [a0, a1, a2, a3, a4])
  {
    var w0, w1, w2, w3, w4 := When(c0, [a0]), When(c1, [a1]), When(c2, [a2]), When(c3, [a3]), When(c4, [a4]);
    var tail := w2 + (w3 + w4);
    ThreeInOrder(a2, a3, a4, c2, c3, c4);
    Seqs.PrependOptional(w1, a1, tail, [a2, a3, a4]);
    Seqs.PrependOptional(w0, a0, w1 + tail, [a1, a2, a3, a4]);
    assert w0 + (w1 + tail) == w0 + w1 + w2 + w3 + w4;
  }

  /** The list keeps the fixed order of the five, so there are at most five. */
  lemma RecommendationsInOrder(f: RiskFigures)
    ensures Seqs.IsSubsequence(Recommendations(f), AllRecommendations)
    ensures |Recommendations(f)| <= 5
  {
    FiveInOrder(LowerUtilization, ReviseLoans, EmergencyFund, MinimumBalance, ConsolidateEmis,
      f.avgUtil > 30.0, f.avgRatio > 0.4, f.volatility > 0.25, f.lowBalanceCount > 5, f.avgEmi > 5.0);
  }

  /** The rules of figures `f`, in the order of the five recommendations. */
  function Rules(f: RiskFigures): seq<bool>
  {
    [f.avgUtil > 30.0, f.avgRatio > 0.4, f.volatility > 0.25, f.lowBalanceCount > 5, f.avgEmi > 5.0]
  }

  /** Recommendation `k` is in the list exactly when rule `k` holds. */
  lemma RecommendationIff(f: RiskFigures, k: nat)
    requires k < 5
    ensures AllRecommendations[k] in Recommendations(f) <==> Rules(f)[k]
  {
    var a := AllRecommendations;
    var c := Rules(f);
    MemberOfFive(a[k], a, c);
    RecommendationsDistinct();
  }

  /** Each recommendation is in the list exactly when its rule holds; in
      particular the minimum-balance advice needs more than five low-balance
      records, not merely one. */
  lemma RecommendationsIff(f: RiskFigures)
    ensures LowerUtilization in Recommendations(f) <==> f.avgUtil > 30.0
    ensures ReviseLoans in Recommendations(f) <==> f.avgRatio > 0.4
    ensures EmergencyFund in Recommendations(f) <==> f.volatility > 0.25
    ensures MinimumBalance in Recommendations(f) <==> f.lowBalanceCount > 5
    ensures ConsolidateEmis in Recommendations(f) <==> f.avgEmi > 5.0
  {
    RecommendationIff(f, 0);
    RecommendationIff(f, 1);
    RecommendationIff(f, 2);
    RecommendationIff(f, 3);
    RecommendationIff(f, 4);
  }

  const HealthyProfile: string := [Banners.CheckMark] + " Your financial profile looks" + " healthy. Keep it up!"

  /** What the section shows: the success box for an empty list, otherwise
      the recommendations in order. */
  function RecommendationView(recommendations: seq<string>): seq<Banners.Banner>
  {
    if recommendations == [] then [Banners.Success(HealthyProfile)]
    else seq(|recommendations|, i requires 0 <= i < |recommendations| => Banners.Info(recommendations[i]))
  }

  /** The healthy message shows exactly when no rule holds. */
  lemma HealthyIffNoRule(f: RiskFigures)
    ensures RecommendationView(Recommendations(f)) == [Banners.Success(HealthyProfile)]
      <==> !(f.avgUtil > 30.0 || f.avgRatio > 0.4 || f.volatility > 0.25 || f.lowBalanceCount > 5 || f.avgEmi > 5.0)
  {
    RecommendationsIff(f);
    var recs := Recommendations(f);
    var view := RecommendationView(recs);
    if recs != [] {
      assert view[0] == Banners.Info(recs[0]);
      assert recs[0] in recs;
    } else {
      assert view == [Banners.Success(HealthyProfile)];
    }
  }

  /** One to five low-balance records raise the balance warning but no
      minimum-balance advice. */
  lemma FewLowBalanceRecordsNoAdvice(rows: seq<Txn>, std: real)
    requires |rows| > 0 && IncomesNonZero(rows) && Stats.Mean(Incomes(rows)) != 0.0
    requires 1 <= |LowBalanceRows(rows)| <= 5
    ensures LowBalanceBanner(rows).Warning?
    ensures MinimumBalance !in Recommendations(FiguresOf(rows, std))
  {
    RecommendationsIff(FiguresOf(rows, std));
  }

  // ---------------------------------------------------------------------
  // The advisor note file (JSON)
  // ---------------------------------------------------------------------

  /** A JSON object with string values. */
  type JsonObject = map<string, string>

  /** `{"note": note}`. */
  function NoteDocument(note: string): JsonObject
  {
    map["note" := note]
  }

  /** `.get("note", "")`. */
  function NoteOf(doc: JsonObject): string
  {
    if "note" in doc then doc["note"] else ""
  }

  /** A saved note reads back unchanged; a document without the key reads as
      the empty note. */
  lemma NoteDocumentRoundTrip(note: string, doc: JsonObject)
    ensures NoteOf(NoteDocument(note)) == note
    ensures "note" !in doc ==> NoteOf(doc) == ""
    ensures NoteDocument(NoteOf(NoteDocument(note))) == NoteDocument(note)
  {
  }

  /** The note panel of one run: load the saved note (`""` without a file),
      show it unless the user typed something, and on Save write
      `{"note": note}`, on Clear remove the file and empty the note. Returns
      the note the report then prints. */
  method NotePanel(slot: Notes.Slot<JsonObject>, typed: Option<string>, action: Notes.Action)
    returns (note: string)
    modifies slot
    ensures var saved := if old(slot.stored).Some? then NoteOf(old(slot.stored).value) else "";
      action != Notes.ClearClicked ==> note == typed.GetOr(saved)
    ensures action == Notes.Idle ==> slot.stored == old(slot.stored)
    ensures action == Notes.SaveClicked ==> slot.stored == Some(NoteDocument(note))
    ensures action == Notes.ClearClicked ==> slot.stored == None && note == ""
  {
    var savedNote := "";
    if slot.Exists() {
      savedNote := NoteOf(slot.Load(map[]));
    }
    note := typed.GetOr(savedNote);
    if action == Notes.SaveClicked {
      slot.Save(NoteDocument(note));
    } else if action == Notes.ClearClicked {
      slot.Clear();
      note := "";
    }
  }

  // ---------------------------------------------------------------------
  // generate_pdf
  // ---------------------------------------------------------------------

  const NoNoteSaved: string := "No advisor note saved."

  /** `note if note else "No advisor note saved."`. */
  function PdfNoteText(note: string): (text: string)
  {
    if note != "" then note else NoNoteSaved
  }

  /** The text is never empty: an empty note is replaced by the fallback and
      any other note, blank ones included, is printed as it is. */
  lemma PdfNoteTextSpec(note: string)
    ensures PdfNoteText(note) != ""
    ensures note == "" ==> PdfNoteText(note) == NoNoteSaved
    ensures note != "" ==> PdfNoteText(note) == note
    ensures PdfNoteText(PdfNoteText(note)) == PdfNoteText(note)
  {
    assert |NoNoteSaved| == 22;
  }

  /** One cell of the report: a bold section heading, a line of figures, or
      the closing multi-line note. */
  datatype PdfCell = Heading(text: string) | Line(text: string) | NoteCell(text: string)

  /** The report's figures as the page formats them. */
  datatype ShownRisk = ShownRisk(
    utilization: string,
    ratioPercent: string,
    overBudget: string,
    incomeStd: string,
    volatility: string,
    suspicious: string,
    lowBalance: string,
    uniqueAlerts: string,
    avgEmi: string)

  const ReportTitle: string := "FinTalk Pro: Risk Report" + " for User #1017"

  /** The cells of `generate_pdf` after its title, for shown figures `s`. */
  function PdfCells(s: ShownRisk, note: string): seq<PdfCell>
  {
    [Heading("Credit Utilization Risk"), Line("Average Utilization: " + s.utilization + "%"),
     Heading("Loan Repayment Risk"), Line("Repayment-to-Income Ratio: " + s.ratioPercent + "%"),
     Heading("Over-Budget Spending Risk"), Line("Over-budget Transactions: " + s.overBudget),
     Heading("Income Volatility Risk"), Line("Income Std Dev: " + s.incomeStd),
     Line("Volatility Ratio: " + s.volatility),
     Heading("Fraud & Anomaly Risk"), Line("Suspicious Transactions: " + s.suspicious),
     Heading("Account Balance Risk"), Line("Low Balance Records: " + s.lowBalance),
     Heading("Security Alert Monitoring"), Line("Unique Alerts: " + s.uniqueAlerts),
     Heading("EMI Load Risk"), Line("Average EMI Count: " + s.avgEmi),
     Heading("Advisor Note"), NoteCell(PdfNoteText(note))]
  }

  /** The figures of a table as the report prints them. */
  function ShownRiskOf(rows: seq<Txn>, std: real): ShownRisk
    requires |rows| > 0 && IncomesNonZero(rows) && Stats.Mean(Incomes(rows)) != 0.0
  {
    ShownRisk(
      Text.Fixed(AverageUtilization(rows), 2),
      Text.Fixed(AverageRatio(rows) * 100.0, 2),
      Text.NatToString(OverBudgetCount(rows)),
      Text.Fixed(std, 2),
      Text.Fixed(VolatilityRatio(std, Stats.Mean(Incomes(rows))), 2),
      Text.NatToString(|Anomalies(rows)|),
      Text.NatToString(|LowBalanceRows(rows)|),
      Text.NatToString(if Alerts(rows) != [] then UniqueAlerts(rows) else 0),
      Text.Fixed(AverageEmi(rows), 1))
  }

  /** `generate_pdf` for the table, the deviation and the note of the run:
      the title, then the cells. */
  function RiskPdf(rows: seq<Txn>, std: real, note: string): seq<PdfCell>
    requires |rows| > 0 && IncomesNonZero(rows) && Stats.Mean(Incomes(rows)) != 0.0
  {
    [Line(ReportTitle)] + PdfCells(ShownRiskOf(rows, std), note)
  }

  /** The nine section headings of the report, in the order of the page. */
  const SectionHeadings: seq<string> := ["Credit Utilization Risk", "Loan Repayment Risk",
    "Over-Budget Spending Risk", "Income Volatility Risk", "Fraud & Anomaly Risk",
    "Account Balance Risk", "Security Alert Monitoring", "EMI Load Risk", "Advisor Note"]

  /** Where the headings sit among the cells after the title. */
  const HeadingPositions: seq<int> := [0, 2, 4, 6, 9, 11, 13, 15, 17]

  /** After the title every report has the same 19 cells whatever the
      figures (20 with the title): the nine section headings at fixed
      positions and in a fixed order, lines under each, and last the note
      cell, which prints the note, or the fallback sentence when the note is
      "". */
  lemma RiskPdfLayout(s: ShownRisk, note: string)
    ensures |PdfCells(s, note)| == 19
    ensures forall k :: 0 <= k < 9 ==> PdfCells(s, note)[HeadingPositions[k]] == Heading(SectionHeadings[k])
    ensures forall i :: 0 <= i < 19 ==> (PdfCells(s, note)[i].Heading? <==> i in HeadingPositions)
    ensures PdfCells(s, note)[18] == NoteCell(PdfNoteText(note))
    ensures forall i :: 0 <= i < 18 ==> !PdfCells(s, note)[i].NoteCell?
    ensures PdfCells(s, note)[18].text == if note == "" then NoNoteSaved else note
  {
  }

  /** After Clear the report prints the fallback sentence. */
  lemma ClearedNoteFallback(rows: seq<Txn>, std: real)
    requires |rows| > 0 && IncomesNonZero(rows) && Stats.Mean(Incomes(rows)) != 0.0
    ensures RiskPdf(rows, std, "")[|RiskPdf(rows, std, "")| - 1] == NoteCell(NoNoteSaved)
  {
    RiskPdfLayout(ShownRiskOf(rows, std), "");
  }
}
