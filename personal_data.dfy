/** The personal dashboard page: column-name normalisation, the monthly
    summary and utilisation rules, the groceries status column, the text of
    the downloadable report with its optional advisor note, and the note
    panel's session state. */
module PersonalData {
  import opened Wrappers
  import Seqs
  import Text
  import Sanitize
  import Stats
  import Grouping
  import Notes
  import Banners

  // ---------------------------------------------------------------------
  // Column names
  // ---------------------------------------------------------------------

  /** `df.columns.str.strip().str.lower().str.replace(" ", "_")` for one
      column name. */
  function NormalizeColumn(name: string): string
  {
    Text.ReplaceChar(Text.Lower(Text.Strip(name)), ' ', "_")
  }

  /** Lower-casing keeps whitespace whitespace and everything else not. */
  lemma LowerCharSpace(c: char)
    ensures Text.IsSpace(Text.LowerChar(c)) <==> Text.IsSpace(c)
    ensures Text.LowerChar(c) == ' ' <==> c == ' '
    ensures Text.LowerChar(Text.LowerChar(c)) == Text.LowerChar(c)
  {
  }

  /** A normalised name has no space and no upper-case ASCII letter, does not
      start or end with whitespace, is as long as the stripped name, and is
      empty exactly when the name is blank. */
  lemma NormalizeColumnSpec(name: string)
    ensures var r := NormalizeColumn(name);
      && ' ' !in r
      && (forall i :: 0 <= i < |r| ==> !('A' <= r[i] <= 'Z'))
      && (r == [] || (!Text.IsSpace(r[0]) && !Text.IsSpace(r[|r| - 1])))
      && |r| == |Text.Strip(name)|
      && (r == [] <==> Text.IsBlank(name))
  {
    var t := Text.Strip(name);
    var l := Text.Lower(t);
    var r := NormalizeColumn(name);
    Text.ReplaceCharByOne(l, ' ', '_');
    Text.StripBlank(name);
    forall i | 0 <= i < |r|
      ensures r[i] != ' ' && !('A' <= r[i] <= 'Z')
      ensures !Text.IsSpace(t[i]) ==> !Text.IsSpace(r[i])
    {
      LowerCharSpace(t[i]);
    }
  }

  /** Normalising an already normalised name changes nothing. */
  lemma NormalizeColumnIdempotent(name: string)
    ensures NormalizeColumn(NormalizeColumn(name)) == NormalizeColumn(name)
  {
    var r := NormalizeColumn(name);
    NormalizeColumnSpec(name);
    Text.StripFixes(r);
    forall i | 0 <= i < |r| ensures Text.LowerChar(r[i]) == r[i] {
    }
    assert Text.Lower(r) == r;
    Text.ReplaceAbsent(r, ' ', "_");
  }

  // ---------------------------------------------------------------------
  // The table
  // ---------------------------------------------------------------------

  /** One row of the dashboard CSV, restricted to the columns the modelled
      logic reads. */
  datatype Row = Row(
    monthlyIncome: real,
    monthlyExpenses: real,
    creditUtilization: real,
    transactionCategory: string,
    recentTransactionAmount: real,
    groceriesBudget: real,
    groceriesSpent: real)

  function Incomes(rows: seq<Row>): seq<real>
  {
    Seqs.Map(rows, (r: Row) => r.monthlyIncome)
  }

  function Expenses(rows: seq<Row>): seq<real>
  {
    Seqs.Map(rows, (r: Row) => r.monthlyExpenses)
  }

  function Utilizations(rows: seq<Row>): seq<real>
  {
    Seqs.Map(rows, (r: Row) => r.creditUtilization)
  }

  /** (category, amount) of every row, the input of the category grouping. */
  function CategoryAmounts(rows: seq<Row>): seq<(string, real)>
  {
    seq(|rows|, i requires 0 <= i < |rows| => (rows[i].transactionCategory, rows[i].recentTransactionAmount))
  }

  // ---------------------------------------------------------------------
  // financial_summary and credit_utilization_analysis
  // ---------------------------------------------------------------------

  function AverageIncome(rows: seq<Row>): real
    requires |rows| > 0
  {
    Stats.Mean(Incomes(rows))
  }

  function AverageExpenses(rows: seq<Row>): real
    requires |rows| > 0
  {
    Stats.Mean(Expenses(rows))
  }

  function AverageUtilization(rows: seq<Row>): real
    requires |rows| > 0
  {
    Stats.Mean(Utilizations(rows))
  }

  /** Mean income minus mean expenses: the per-row share of the difference
      of the two column totals. */
  function NetSavings(rows: seq<Row>): (n: real)
    requires |rows| > 0
    ensures n * |rows| as real == Stats.Sum(Incomes(rows)) - Stats.Sum(Expenses(rows))
  {
    var income := AverageIncome(rows);
    var expenses := AverageExpenses(rows);
    assert (income - expenses) * |rows| as real
      == income * |rows| as real - expenses * |rows| as real;
    income - expenses
  }

  const Overspending: string := [Banners.WarningSign, Banners.Vs16] + " You're spending more" + " than you earn."
  const SavingOnAverage: string := [Banners.CheckMark] + " You're saving money" + " on average."
  const KeepUtilizationLow: string := [Banners.WarningSign, Banners.Vs16] + " Try to keep credit" + " utilization under 30%."
  const HealthyUtilization: string := [Banners.CheckMark] + " Your credit utilization" + " is healthy."

  /** The three summary metrics as shown, and the status box under them. */
  datatype Summary = Summary(income: string, expenses: string, netSavings: string, banner: Banners.Banner)

  /** The status box under the summary metrics. */
  function SavingsBanner(rows: seq<Row>): Banners.Banner
    requires |rows| > 0
  {
    if NetSavings(rows) < 0.0 then Banners.Error(Overspending) else Banners.Success(SavingOnAverage)
  }

  /** `financial_summary`. */
  function FinancialSummary(rows: seq<Row>): Summary
    requires |rows| > 0
  {
    Summary(
      [Sanitize.Rupee] + Text.Fixed(AverageIncome(rows), 2),
      [Sanitize.Rupee] + Text.Fixed(AverageExpenses(rows), 2),
      [Sanitize.Rupee] + Text.Fixed(NetSavings(rows), 2),
      SavingsBanner(rows))
  }

  /** The overspending error shows exactly when the expenses column sums to
      more than the income column, that is, when mean expenses exceed mean
      income; otherwise the saving message shows. */
  lemma OverspendingShownIff(rows: seq<Row>)
    requires |rows| > 0
    ensures SavingsBanner(rows).Error? <==> Stats.Sum(Expenses(rows)) > Stats.Sum(Incomes(rows))
    ensures SavingsBanner(rows).Error? <==> AverageExpenses(rows) > AverageIncome(rows)
    ensures SavingsBanner(rows)
      == if Stats.Sum(Expenses(rows)) > Stats.Sum(Incomes(rows)) then Banners.Error(Overspending)
         else Banners.Success(SavingOnAverage)
  {
    Stats.ScaleOrder(NetSavings(rows), 0.0, |rows| as real);
  }

  /** The utilisation metric as shown, and its status box. */
  datatype UtilizationView = UtilizationView(metric: string, banner: Banners.Banner)

  /** The status box of the utilisation metric. */
  function UtilizationBanner(rows: seq<Row>): Banners.Banner
    requires |rows| > 0
  {
    if AverageUtilization(rows) > 30.0 then Banners.Warning(KeepUtilizationLow)
    else Banners.Success(HealthyUtilization)
  }

  /** `credit_utilization_analysis`. */
  function CreditUtilizationAnalysis(rows: seq<Row>): UtilizationView
    requires |rows| > 0
  {
    UtilizationView(Text.Fixed(AverageUtilization(rows), 2) + "%", UtilizationBanner(rows))
  }

  /** The mean utilisation times the row count is the column total. */
  lemma UtilizationTotal(rows: seq<Row>)
    requires |rows| > 0
    ensures AverageUtilization(rows) * |rows| as real == Stats.Sum(Utilizations(rows))
  {
    assert |Utilizations(rows)| == |rows|;
  }

  /** The warning shows exactly when the utilisation column sums to more than
      30 per row. */
  lemma UtilizationWarningIff(rows: seq<Row>)
    requires |rows| > 0
    ensures UtilizationBanner(rows).Warning? <==> Stats.Sum(Utilizations(rows)) > 30.0 * |rows| as real
    ensures !UtilizationBanner(rows).Warning? ==> UtilizationBanner(rows) == Banners.Success(HealthyUtilization)
  {
    var n := |rows| as real;
    UtilizationTotal(rows);
    Stats.ScaleOrder(30.0, AverageUtilization(rows), n);
    assert 30.0 * n == n * 30.0;
  }

  /** A table whose every row is at most 30 is healthy. */
  lemma HealthyRowsHealthy(rows: seq<Row>)
    requires |rows| > 0
    requires forall i :: 0 <= i < |rows| ==> rows[i].creditUtilization <= 30.0
    ensures UtilizationBanner(rows) == Banners.Success(HealthyUtilization)
  {
    var u := Utilizations(rows);
    assert |u| == |rows|;
    assert forall i :: 0 <= i < |u| ==> Lowest(u) <= u[i] <= 30.0;
    Stats.MeanBounds(u, Lowest(u), 30.0);
  }

  /** The smallest entry of a non-empty column. */
  function Lowest(xs: seq<real>): (m: real)
    requires |xs| > 0
    ensures forall i :: 0 <= i < |xs| ==> m <= xs[i]
    decreases |xs|
  {
    if |xs| == 1 then xs[0]
    else
      var rest := Lowest(xs[1..]);
      assert forall i :: 1 <= i < |xs| ==> xs[i] == xs[1..][i - 1];
      if xs[0] <= rest then xs[0] else rest
  }

  // ---------------------------------------------------------------------
  // Groceries status
  // ---------------------------------------------------------------------

  const OverBudget: string := "Over Budget"
  const NearLimit: string := "Near Limit"
  const UnderBudget: string := "Under Budget"

  /** The nested `np.where` for one row. */
  function GroceryStatus(budget: real, spent: real): string
  {
    if spent > budget then OverBudget
    else if spent > 0.8 * budget then NearLimit
    else UnderBudget
  }

  /** Each row gets exactly one of the three labels: "Over Budget" exactly
      when spending exceeds the budget, "Near Limit" exactly when it does not
      but exceeds 80% of it, and "Under Budget" otherwise. */
  lemma GroceryStatusSpec(budget: real, spent: real)
    ensures GroceryStatus(budget, spent) == OverBudget <==> spent > budget
    ensures GroceryStatus(budget, spent) == NearLimit <==> spent <= budget && spent > 0.8 * budget
    ensures GroceryStatus(budget, spent) == UnderBudget <==> spent <= budget && spent <= 0.8 * budget
    ensures GroceryStatus(budget, spent) in {OverBudget, NearLimit, UnderBudget}
  {
    assert |OverBudget| == 11 && |NearLimit| == 10 && |UnderBudget| == 12;
  }

  /** For a non-negative budget the label only moves up as spending grows. */
  lemma GroceryStatusMonotone(budget: real, spent: real, more: real)
    requires budget >= 0.0 && spent <= more
    ensures GroceryStatus(budget, spent) == OverBudget ==> GroceryStatus(budget, more) == OverBudget
    ensures GroceryStatus(budget, more) == UnderBudget ==> GroceryStatus(budget, spent) == UnderBudget
  {
    GroceryStatusSpec(budget, spent);
    GroceryStatusSpec(budget, more);
  }

  /** The `groceries_status` column, one label per row. */
  function GroceriesStatusColumn(rows: seq<Row>): (labels: seq<string>)
    ensures |labels| == |rows|
  {
    seq(|rows|, i requires 0 <= i < |rows| => GroceryStatus(rows[i].groceriesBudget, rows[i].groceriesSpent))
  }

  /** Row `i` is labelled over budget exactly when it spent more than its
      budget. */
  lemma GroceriesStatusColumnSpec(rows: seq<Row>)
    ensures forall i :: 0 <= i < |rows| ==>
      (GroceriesStatusColumn(rows)[i] == OverBudget <==> rows[i].groceriesSpent > rows[i].groceriesBudget)
    ensures forall i :: 0 <= i < |rows| ==>
      GroceriesStatusColumn(rows)[i] in {OverBudget, NearLimit, UnderBudget}
  {
    forall i | 0 <= i < |rows|
      ensures GroceriesStatusColumn(rows)[i] == OverBudget <==> rows[i].groceriesSpent > rows[i].groceriesBudget
      ensures GroceriesStatusColumn(rows)[i] in {OverBudget, NearLimit, UnderBudget}
    {
      GroceryStatusSpec(rows[i].groceriesBudget, rows[i].groceriesSpent);
    }
  }

  // ---------------------------------------------------------------------
  // Top spending categories
  // ---------------------------------------------------------------------

  /** `groupby("transaction_category")["recent_transaction_amount"].sum()
      .sort_values()`. */
  function TopCategories(rows: seq<Row>): seq<(string, real)>
  {
    Grouping.SortByAmount(Grouping.Totals(CategoryAmounts(rows)))
  }

  /** The categories come in ascending order of summed amount, each category
      once, each with the sum of its rows' amounts. */
  lemma TopCategoriesSpec(rows: seq<Row>)
    ensures Grouping.AscendingByAmount(TopCategories(rows))
    ensures Grouping.DistinctKeys(TopCategories(rows))
    ensures forall i :: 0 <= i < |TopCategories(rows)| ==>
      TopCategories(rows)[i].1 == Grouping.SumFor(CategoryAmounts(rows), TopCategories(rows)[i].0)
  {
    var pairs := CategoryAmounts(rows);
    var totals := Grouping.Totals(pairs);
    var top := TopCategories(rows);
    Grouping.TotalsSpec(pairs);
    Grouping.SortKeepsDistinct(totals);
    forall i | 0 <= i < |top| ensures top[i].1 == Grouping.SumFor(pairs, top[i].0) {
      assert top[i] in multiset(totals);
      var j :| 0 <= j < |totals| && totals[j] == top[i];
    }
  }

  /** The categories listed are exactly the categories of the table. */
  lemma TopCategoriesKeys(rows: seq<Row>)
    ensures forall k :: (Grouping.Occurs(TopCategories(rows), k)
      <==> exists i :: 0 <= i < |rows| && rows[i].transactionCategory == k)
  {
    var pairs := CategoryAmounts(rows);
    var totals := Grouping.Totals(pairs);
    Grouping.TotalsSpec(pairs);
    Grouping.SameKeys(totals, TopCategories(rows));
    forall k ensures Grouping.Occurs(pairs, k) <==> exists i :: 0 <= i < |rows| && rows[i].transactionCategory == k {
      if Grouping.Occurs(pairs, k) {
        var i :| 0 <= i < |pairs| && pairs[i].0 == k;
        assert rows[i].transactionCategory == k;
      }
      if exists i :: 0 <= i < |rows| && rows[i].transactionCategory == k {
        var i :| 0 <= i < |rows| && rows[i].transactionCategory == k;
        assert pairs[i].0 == k;
      }
    }
  }

  // ---------------------------------------------------------------------
  // generate_report_text
  // ---------------------------------------------------------------------

  /** U+1F4CA BAR CHART. */
  const BarChart: char := '\U{1F4CA}'

  const ReportTitle: string := [BarChart] + " Financial Report Summary"
  const IncomeLabel: string := "Avg Monthly Income: " + [Sanitize.Rupee]
  const ExpensesLabel: string := "Avg Monthly Expenses: " + [Sanitize.Rupee]
  const NetLabel: string := "Net Savings: " + [Sanitize.Rupee]
  const CategoriesHeading: string := "Top Spending Categories:"
  const UtilizationLabel: string := "Avg Credit Utilization: "

  /** The report's figures as the page formats them: the averages and each
      category's total with two decimals. */
  datatype Figures = Figures(
    income: string,
    expenses: string,
    net: string,
    utilization: string,
    categories: seq<(string, string)>)

  /** A category with the absolute value of its total, `f"{abs(amt):.2f}"`. */
  function Shown(entry: (string, real)): (string, string)
  {
    (entry.0, Text.Fixed(Text.Abs(entry.1), 2))
  }

  /** Each category shown. */
  function ShownCategories(entries: seq<(string, real)>): seq<(string, string)>
  {
    Seqs.Map(entries, Shown)
  }

  function ShownFigures(rows: seq<Row>): Figures
    requires |rows| > 0
  {
    Figures(
      Text.Fixed(AverageIncome(rows), 2),
      Text.Fixed(AverageExpenses(rows), 2),
      Text.Fixed(NetSavings(rows), 2),
      Text.Fixed(AverageUtilization(rows), 2),
      ShownCategories(TopCategories(rows)))
  }

  /** The text of one category line, without its newline. */
  function CategoryText(entry: (string, string)): string
  {
    " - " + entry.0 + ": " + [Sanitize.Rupee] + entry.1
  }

  /** The category lines in order, each ended by a newline. */
  function CategoryLines(entries: seq<(string, string)>): string
    decreases |entries|
  {
    if entries == [] then []
    else CategoryLines(entries[..|entries| - 1]) + Text.Ln(CategoryText(entries[|entries| - 1]))
  }

  /** The report up to and including the category heading. */
  function Header(f: Figures): string
  {
    Text.Ln(ReportTitle) + Text.Ln("")
    + Text.Ln(IncomeLabel + f.income)
    + Text.Ln(ExpensesLabel + f.expenses)
    + Text.Ln(NetLabel + f.net) + Text.Ln("")
    + Text.Ln(CategoriesHeading)
  }

  /** The utilisation line that closes the metrics. */
  function UtilizationLine(f: Figures): string
  {
    UtilizationLabel + f.utilization + "%"
  }

  /** The report without the note, for given figures. */
  function Body(f: Figures): string
  {
    Header(f) + CategoryLines(f.categories) + Text.Ln("") + Text.Ln(UtilizationLine(f))
  }

  /** The report without the note. */
  function ReportBody(rows: seq<Row>): string
    requires |rows| > 0
  {
    Body(ShownFigures(rows))
  }

  /** The lines in front of the note: an empty line, the rule and the
      pushpin heading. */
  const NoteHead: string := Text.Ln("") + Text.Ln(Notes.Rule) + Text.Ln([Notes.Pushpin] + Notes.NotesHeading)

  /** What the note file contributes: nothing without a file or when its
      stripped text is empty, and otherwise a newline, the rule, the pushpin
      heading and the stripped note. */
  function NoteBlock(stored: Option<string>): string
  {
    if stored.Some? && Text.Strip(stored.value) != [] then
      NoteHead + Text.Ln(Text.Strip(stored.value))
    else []
  }

  /** `generate_report_text` with the note file in the state `stored`. */
  function ReportText(rows: seq<Row>, stored: Option<string>): string
    requires |rows| > 0
  {
    ReportBody(rows) + NoteBlock(stored)
  }

  /** `generate_report_text`: the metric lines, one line per category in the
      sorted order, the utilisation line, and the note block when the slot
      holds a note that is not blank. */
  method GenerateReportText(rows: seq<Row>, slot: Notes.Slot<string>) returns (report: string)
    requires |rows| > 0
    ensures report == ReportText(rows, slot.stored)
  {
    var income := AverageIncome(rows);
    var expenses := AverageExpenses(rows);
    var netSavings := income - expenses;
    var avgUtil := AverageUtilization(rows);
    var topCats := TopCategories(rows);

    report := Text.Ln(ReportTitle) + Text.Ln("");
    report := report + Text.Ln(IncomeLabel + Text.Fixed(income, 2));
    report := report + Text.Ln(ExpensesLabel + Text.Fixed(expenses, 2));
    report := report + Text.Ln(NetLabel + Text.Fixed(netSavings, 2)) + Text.Ln("");
    report := report + Text.Ln(CategoriesHeading);
    assert report == Header(ShownFigures(rows));
    report := WriteCategoryLines(report, topCats);
    report := report + Text.Ln("") + Text.Ln(UtilizationLabel + Text.Fixed(avgUtil, 2) + "%");
    assert report == ReportBody(rows);
    report := AppendNote(report, slot);
  }

  /** The "include advisor note if exists" step: the note block after
      `report`. */
  method AppendNote(prefix: string, slot: Notes.Slot<string>) returns (report: string)
    ensures report == prefix + NoteBlock(slot.stored)
  {
    report := prefix;
    if slot.Exists() {
      var note := Text.Strip(slot.Load(""));
      if note != [] {
        report := report + (NoteHead + Text.Ln(note));
      }
    }
  }

  lemma CategoryLinesSnoc(cs: seq<(string, string)>, c: (string, string))
    ensures CategoryLines(cs + [c]) == CategoryLines(cs) + Text.Ln(CategoryText(c))
  {
    assert (cs + [c])[..|cs|] == cs;
  }

  lemma ShownSnoc(entries: seq<(string, real)>, i: nat)
    requires i < |entries|
    ensures ShownCategories(entries[..i + 1]) == ShownCategories(entries[..i]) + [Shown(entries[i])]
  {
    assert entries[..i + 1] == entries[..i] + [entries[i]];
    Seqs.MapAppend(entries[..i], [entries[i]], Shown);
  }

  lemma AppendAssoc(p: string, x: string, y: string)
    ensures (p + x) + y == p + (x + y)
  {
  }

  /** One more category line extends the lines written so far. */
  lemma CategoryLinesStep(prefix: string, report: string, entries: seq<(string, real)>, i: nat)
    requires i < |entries|
    requires report == prefix + CategoryLines(ShownCategories(entries[..i]))
    ensures report + Text.Ln(CategoryText(Shown(entries[i])))
      == prefix + CategoryLines(ShownCategories(entries[..i + 1]))
  {
    ShownSnoc(entries, i);
    CategoryLinesSnoc(ShownCategories(entries[..i]), Shown(entries[i]));
    AppendAssoc(prefix, CategoryLines(ShownCategories(entries[..i])), Text.Ln(CategoryText(Shown(entries[i]))));
  }

  /** The `for cat, amt in top_cats.items()` loop: one line per category,
      in order, after `prefix`. */
  method WriteCategoryLines(prefix: string, entries: seq<(string, real)>) returns (report: string)
    ensures report == prefix + CategoryLines(ShownCategories(entries))
  {
    report := prefix;
    for i := 0 to |entries|
      invariant report == prefix + CategoryLines(ShownCategories(entries[..i]))
    {
      CategoryLinesStep(prefix, report, entries, i);
      report := report + Text.Ln(CategoryText(Shown(entries[i])));
    }
    assert entries[..|entries|] == entries;
  }

  /** The note block is present exactly when the slot exists and its stripped
      text is not empty, so a missing, cleared or blank note leaves the body
      alone; when present it comes after the whole body. */
  lemma NoteBlockIff(rows: seq<Row>, stored: Option<string>)
    requires |rows| > 0
    ensures NoteBlock(stored) != [] <==> stored.Some? && !Text.IsBlank(stored.value)
    ensures ReportText(rows, stored)[..|ReportBody(rows)|] == ReportBody(rows)
    ensures stored == None ==> ReportText(rows, stored) == ReportBody(rows)
  {
    if stored.Some? {
      Text.StripBlank(stored.value);
    }
  }

  // ---------------------------------------------------------------------
  // The lines of the report
  // ---------------------------------------------------------------------

  /** The texts of the category lines, in order. */
  function CategoryTexts(entries: seq<(string, string)>): (texts: seq<string>)
    ensures |texts| == |entries|
    decreases |entries|
  {
    if entries == [] then []
    else CategoryTexts(entries[..|entries| - 1]) + [CategoryText(entries[|entries| - 1])]
  }

  /** The category lines are the category texts, each with its newline. */
  lemma {:induction false} CategoryLinesAsText(entries: seq<(string, string)>)
    ensures CategoryLines(entries) == Text.LinesText(CategoryTexts(entries))
    decreases |entries|
  {
    if entries != [] {
      var init := entries[..|entries| - 1];
      CategoryLinesAsText(init);
      Text.LinesTextSnoc(CategoryTexts(init), CategoryText(entries[|entries| - 1]));
    }
  }

  /** Seven lines written with `+=` are their lines text. */
  lemma SevenLines(a1: string, a2: string, a3: string, a4: string, a5: string, a6: string, a7: string)
    ensures Text.Ln(a1) + Text.Ln(a2) + Text.Ln(a3) + Text.Ln(a4) + Text.Ln(a5) + Text.Ln(a6) + Text.Ln(a7)
      == Text.LinesText([a1, a2, a3, a4, a5, a6, a7])
  {
    assert [] + [a1] == [a1];
    assert [a1] + [a2] == [a1, a2];
    assert [a1, a2] + [a3] == [a1, a2, a3];
    assert [a1, a2, a3] + [a4] == [a1, a2, a3, a4];
    assert [a1, a2, a3, a4] + [a5] == [a1, a2, a3, a4, a5];
    assert [a1, a2, a3, a4, a5] + [a6] == [a1, a2, a3, a4, a5, a6];
    assert [a1, a2, a3, a4, a5, a6] + [a7] == [a1, a2, a3, a4, a5, a6, a7];
    Text.LinesTextSnoc([], a1);
    Text.LinesTextSnoc([a1], a2);
    Text.LinesTextSnoc([a1, a2], a3);
    Text.LinesTextSnoc([a1, a2, a3], a4);
    Text.LinesTextSnoc([a1, a2, a3, a4], a5);
    Text.LinesTextSnoc([a1, a2, a3, a4, a5], a6);
    Text.LinesTextSnoc([a1, a2, a3, a4, a5, a6], a7);
  }

  lemma TwoLines(a1: string, a2: string)
    ensures Text.Ln(a1) + Text.Ln(a2) == Text.LinesText([a1, a2])
  {
    assert [] + [a1] == [a1];
    assert [a1] + [a2] == [a1, a2];
    Text.LinesTextSnoc([], a1);
    Text.LinesTextSnoc([a1], a2);
  }

  /** The lines of the metrics block in front of the categories. */
  function HeaderLines(f: Figures): seq<string>
  {
    [ReportTitle, "", IncomeLabel + f.income, ExpensesLabel + f.expenses, NetLabel + f.net, "", CategoriesHeading]
  }

  /** The lines of the body, in the order the page writes them. */
  function BodyLines(f: Figures): seq<string>
  {
    HeaderLines(f) + CategoryTexts(f.categories) + ["", UtilizationLine(f)]
  }

  /** Seven lines, some more lines and a final two are the lines text of all
      of them. */
  lemma BodyShape(a: seq<string>, more: seq<string>, moreText: string, u: string)
    requires |a| == 7
    requires moreText == Text.LinesText(more)
    ensures Text.Ln(a[0]) + Text.Ln(a[1]) + Text.Ln(a[2]) + Text.Ln(a[3]) + Text.Ln(a[4]) + Text.Ln(a[5])
      + Text.Ln(a[6]) + moreText + Text.Ln("") + Text.Ln(u)
      == Text.LinesText(a + more + ["", u])
  {
    SevenLines(a[0], a[1], a[2], a[3], a[4], a[5], a[6]);
    assert a == [a[0], a[1], a[2], a[3], a[4], a[5], a[6]];
    TwoLines("", u);
    Text.LinesTextAppend(a, more);
    Text.LinesTextAppend(a + more, ["", u]);
  }

  /** The body is its lines, each ended by a newline. */
  lemma BodyAsLines(f: Figures)
    ensures Body(f) == Text.LinesText(BodyLines(f))
  {
    CategoryLinesAsText(f.categories);
    BodyShape(HeaderLines(f), CategoryTexts(f.categories), CategoryLines(f.categories), UtilizationLine(f));
  }

  /** No figure holds a line separator. */
  ghost predicate OneLine(f: Figures)
  {
    && '\n' !in f.income && '\n' !in f.expenses && '\n' !in f.net && '\n' !in f.utilization
    && forall i :: 0 <= i < |f.categories| ==> '\n' !in f.categories[i].0 && '\n' !in f.categories[i].1
  }

  lemma TitleOneLine()
    ensures '\n' !in ReportTitle
  {
    assert ReportTitle[0] == BarChart;
    assert ReportTitle[1..] == " Financial Report Summary";
  }

  lemma LabelsOneLine()
    ensures '\n' !in IncomeLabel && '\n' !in ExpensesLabel && '\n' !in NetLabel
  {
  }

  lemma HeadingsOneLine()
    ensures '\n' !in CategoriesHeading && '\n' !in UtilizationLabel
  {
  }

  lemma {:induction false} CategoryTextsOneLine(entries: seq<(string, string)>)
    requires forall i :: 0 <= i < |entries| ==> '\n' !in entries[i].0 && '\n' !in entries[i].1
    ensures forall i :: 0 <= i < |CategoryTexts(entries)| ==> '\n' !in CategoryTexts(entries)[i]
    decreases |entries|
  {
    if entries != [] {
      var init := entries[..|entries| - 1];
      assert forall i :: 0 <= i < |init| ==> init[i] == entries[i];
      CategoryTextsOneLine(init);
    }
  }

  /** With one-line figures no line of the body holds a newline. */
  lemma BodyLinesOneLine(f: Figures)
    requires OneLine(f)
    ensures forall i :: 0 <= i < |BodyLines(f)| ==> '\n' !in BodyLines(f)[i]
  {
    var h := HeaderLines(f);
    var c := CategoryTexts(f.categories);
    TitleOneLine();
    LabelsOneLine();
    HeadingsOneLine();
    assert forall i :: 0 <= i < |h| ==> '\n' !in h[i];
    CategoryTextsOneLine(f.categories);
    var b := BodyLines(f);
    forall i | 0 <= i < |b| ensures '\n' !in b[i] {
      if i < |h| {
        assert b[i] == h[i];
      } else if i < |h| + |c| {
        assert b[i] == c[i - |h|];
      }
    }
  }

  /** With one-line figures the body splits into its lines, followed by the
      empty piece after the final newline. */
  lemma BodyInOrder(f: Figures)
    requires OneLine(f)
    ensures Text.Split(Body(f), '\n') == BodyLines(f) + [""]
  {
    BodyAsLines(f);
    BodyLinesOneLine(f);
    Text.SplitLinesText(BodyLines(f), []);
    assert Text.LinesText(BodyLines(f)) + [] == Body(f);
  }

  lemma FixedOneLine(x: real)
    ensures '\n' !in Text.Fixed(x, 2)
  {
    Text.FixedChars(x, 2);
  }

  /** The figures of a table whose category names hold no newline are one
      line each. */
  lemma ShownFiguresOneLine(rows: seq<Row>)
    requires |rows| > 0
    requires forall i :: 0 <= i < |rows| ==> '\n' !in rows[i].transactionCategory
    ensures OneLine(ShownFigures(rows))
  {
    var cats := TopCategories(rows);
    TopCategoriesKeys(rows);
    FixedOneLine(AverageIncome(rows));
    FixedOneLine(AverageExpenses(rows));
    FixedOneLine(NetSavings(rows));
    FixedOneLine(AverageUtilization(rows));
    var shown := ShownCategories(cats);
    forall i | 0 <= i < |shown| ensures '\n' !in shown[i].0 && '\n' !in shown[i].1 {
      assert Grouping.Occurs(cats, cats[i].0);
      FixedOneLine(Text.Abs(cats[i].1));
      assert shown[i] == Shown(cats[i]);
    }
  }

  /** When no category name holds a newline, the body splits into the title,
      the three metrics, the heading, one line per category in ascending
      order, and the utilisation line, followed by the empty piece after the
      final newline. */
  lemma ReportBodyInOrder(rows: seq<Row>)
    requires |rows| > 0
    requires forall i :: 0 <= i < |rows| ==> '\n' !in rows[i].transactionCategory
    ensures Text.Split(ReportBody(rows), '\n') == BodyLines(ShownFigures(rows)) + [""]
  {
    ShownFiguresOneLine(rows);
    BodyInOrder(ShownFigures(rows));
  }

  // ---------------------------------------------------------------------
  // clean_text_for_pdf and generate_pdf_report
  // ---------------------------------------------------------------------

  /** The lines handed to `multi_cell`. */
  function PdfLines(rows: seq<Row>, stored: Option<string>): seq<string>
    requires |rows| > 0
  {
    Text.Split(Sanitize.CleanDashboard(ReportText(rows, stored)), '\n')
  }

  /** `generate_pdf_report`: one `multi_cell` per `\n`-separated line of the
      sanitised report, in order. The loop only copies the lines into
      cells; what the cells say is stated by `NoteBlockLayout` and
      `PdfLinesLayout`. */
  method GeneratePdfReport(reportText: string) returns (cells: seq<string>)
    ensures cells == Text.Split(Sanitize.CleanDashboard(reportText), '\n')
  {
    var cleanText := Sanitize.CleanDashboard(reportText);
    var lines := Text.Split(cleanText, '\n');
    cells := [];
    for i := 0 to |lines|
      invariant cells == lines[..i]
    {
      cells := cells + [lines[i]];
    }
    assert lines[..|lines|] == lines;
  }

  lemma NewlineClean()
    ensures Sanitize.FlatMap(['\n'], Sanitize.DashboardChar) == ['\n']
  {
    Sanitize.CleanDashboardPlain(['\n']);
    Sanitize.CleanDashboardPerChar(['\n']);
  }

  lemma RuleClean()
    ensures Sanitize.FlatMap(Notes.Rule, Sanitize.DashboardChar) == Notes.Rule
  {
    Sanitize.CleanDashboardPlain(Notes.Rule);
    Sanitize.CleanDashboardPerChar(Notes.Rule);
  }

  lemma NotesHeadingClean()
    ensures Sanitize.FlatMap(Notes.NotesHeading, Sanitize.DashboardChar) == Notes.NotesHeading
  {
    Notes.NotesHeadingPlain();
    Sanitize.CleanDashboardPlain(Notes.NotesHeading);
    Sanitize.CleanDashboardPerChar(Notes.NotesHeading);
  }

  lemma PushpinClean()
    ensures Sanitize.FlatMap([Notes.Pushpin], Sanitize.DashboardChar) == []
  {
    assert Sanitize.FlatMap([Notes.Pushpin], Sanitize.DashboardChar)
      == Sanitize.DashboardChar(Notes.Pushpin) + Sanitize.FlatMap([], Sanitize.DashboardChar);
  }

  lemma NoteHeadAssoc<T>(nl: T, rule: seq<T>, pin: T, heading: seq<T>)
    ensures [] + [nl] + (rule + [nl]) + ([pin] + heading + [nl]) == [nl] + rule + [nl] + [pin] + heading + [nl]
  {
  }

  /** The sanitised head of the note block: the pushpin is gone. */
  lemma CleanNoteHead()
    ensures Sanitize.CleanDashboard(NoteHead) == ['\n'] + Notes.Rule + ['\n'] + Notes.NotesHeading + ['\n']
  {
    NoteHeadAssoc('\n', Notes.Rule, Notes.Pushpin, Notes.NotesHeading);
    Sanitize.CleanDashboardPerChar(NoteHead);
    NewlineClean();
    RuleClean();
    NotesHeadingClean();
    PushpinClean();
    Sanitize.FlatMapPieces(['\n'], Notes.Rule, ['\n'], [Notes.Pushpin], Notes.NotesHeading, ['\n'], Sanitize.DashboardChar);
  }

  /** A head, a note and a newline are sanitised one after the other. */
  lemma CleanHeadAndLine(head: string, n: string)
    ensures Sanitize.CleanDashboard(head + Text.Ln(n)) == Sanitize.CleanDashboard(head) + Sanitize.CleanDashboard(n) + ['\n']
  {
    assert head + Text.Ln(n) == head + n + ['\n'];
    Sanitize.CleanDashboardAppend(head + n, ['\n']);
    Sanitize.CleanDashboardAppend(head, n);
    Sanitize.CleanDashboardPlain(['\n']);
  }

  /** The tail of a sanitised note block after its first newline splits into
      the rule, the heading, the pieces of the note and a final empty piece. */
  lemma SplitNoteTail(rule: string, heading: string, n: string)
    requires '\n' !in rule && '\n' !in heading
    ensures Text.Split(rule + ['\n'] + (heading + ['\n'] + (n + ['\n'] + [])), '\n')
      == [rule, heading] + Text.Split(n, '\n') + [""]
  {
    var s := '\n';
    var t3 := n + [s] + [];
    Text.SplitLeadingLine(rule, s, heading + [s] + t3);
    Text.SplitLeadingLine(heading, s, t3);
    Text.SplitAppend(n, s, []);
  }

  /** Text followed by a sanitised note block splits into the pieces of the
      text, the rule, the heading, the pieces of the note and a final empty
      piece. */
  lemma SplitNoteBlock(a: string, rule: string, heading: string, n: string)
    requires '\n' !in rule && '\n' !in heading
    ensures Text.Split(a + (['\n'] + rule + ['\n'] + heading + ['\n'] + n + ['\n']), '\n')
      == Text.Split(a, '\n') + [rule, heading] + Text.Split(n, '\n') + [""]
  {
    var s := '\n';
    var t1 := rule + [s] + (heading + [s] + (n + [s] + []));
    assert a + ([s] + rule + [s] + heading + [s] + n + [s]) == a + [s] + t1;
    Text.SplitAppend(a, s, t1);
    SplitNoteTail(rule, heading, n);
  }

  /** Without a note block the sanitised text splits as `body` alone; with
      one it gives the pieces of `body`, then the rule, the heading without
      its pushpin, the pieces of the sanitised stripped note, and an empty
      last piece. */
  lemma NoteBlockLayout(body: string, stored: Option<string>)
    ensures NoteBlock(stored) == [] ==>
      Text.Split(Sanitize.CleanDashboard(body + NoteBlock(stored)), '\n')
        == Text.Split(Sanitize.CleanDashboard(body), '\n')
    ensures NoteBlock(stored) != [] ==>
      Text.Split(Sanitize.CleanDashboard(body + NoteBlock(stored)), '\n')
        == Text.Split(Sanitize.CleanDashboard(body), '\n')
           + [Notes.Rule, Notes.NotesHeading]
           + Text.Split(Sanitize.CleanDashboard(Text.Strip(stored.value)), '\n') + [""]
  {
    if NoteBlock(stored) == [] {
      assert body + NoteBlock(stored) == body;
    } else {
      var n := Text.Strip(stored.value);
      Sanitize.CleanDashboardAppend(body, NoteHead + Text.Ln(n));
      CleanHeadAndLine(NoteHead, n);
      CleanNoteHead();
      assert '\n' !in Notes.Rule;
      Notes.NotesHeadingPlain();
      SplitNoteBlock(Sanitize.CleanDashboard(body), Notes.Rule, Notes.NotesHeading, Sanitize.CleanDashboard(n));
    }
  }

  /** Without a note block the PDF holds the lines of the sanitised body;
      with one it holds those lines, then the rule, the heading without its
      pushpin, the lines of the sanitised stripped note, and an empty last
      line. */
  lemma PdfLinesLayout(rows: seq<Row>, stored: Option<string>)
    requires |rows| > 0
    ensures NoteBlock(stored) == [] ==>
      PdfLines(rows, stored) == Text.Split(Sanitize.CleanDashboard(ReportBody(rows)), '\n')
    ensures NoteBlock(stored) != [] ==>
      PdfLines(rows, stored)
        == Text.Split(Sanitize.CleanDashboard(ReportBody(rows)), '\n')
           + [Notes.Rule, Notes.NotesHeading]
           + Text.Split(Sanitize.CleanDashboard(Text.Strip(stored.value)), '\n') + [""]
  {
    NoteBlockLayout(ReportBody(rows), stored);
  }

  // ---------------------------------------------------------------------
  // The note panel
  // ---------------------------------------------------------------------

  /** The two session-state entries of the note panel. */
  class NoteSession {
    var noteLoaded: bool
    var noteContent: string

    /** A fresh browser session: nothing loaded yet. */
    constructor ()
      ensures !noteLoaded && noteContent == ""
    {
      noteLoaded := false;
      noteContent := "";
    }

    /** One run of the panel. The first run of a session copies the file
        (or "") into `note_content`; the text area shows `note_content`
        unless the user typed something; Save writes the text area to the
        file and to `note_content`; Clear removes the file and empties
        `note_content`. Returns the text area's value. */
    method Run(slot: Notes.Slot<string>, typed: Option<string>, action: Notes.Action)
      returns (noteInput: string)
      modifies this, slot
      ensures noteLoaded
      ensures var shown := if old(noteLoaded) then old(noteContent) else old(slot.Load(""));
        noteInput == typed.GetOr(shown)
      ensures action == Notes.Idle ==>
        slot.stored == old(slot.stored)
        && noteContent == (if old(noteLoaded) then old(noteContent) else old(slot.Load("")))
      ensures action == Notes.SaveClicked ==> slot.stored == Some(noteInput) && noteContent == noteInput
      ensures action == Notes.ClearClicked ==> slot.stored == None && noteContent == ""
    {
      if !noteLoaded {
        noteContent := slot.Load("");
        noteLoaded := true;
      }
      noteInput := typed.GetOr(noteContent);
      if action == Notes.SaveClicked {
        slot.Save(noteInput);
        noteContent := noteInput;
      } else if action == Notes.ClearClicked {
        slot.Clear();
        noteContent := "";
      }
    }
  }

  /** After Clear the downloaded report has no note block. */
  lemma ClearedNoteOmitted(rows: seq<Row>)
    requires |rows| > 0
    ensures ReportText(rows, None) == ReportBody(rows)
    ensures PdfLines(rows, None) == Text.Split(Sanitize.CleanDashboard(ReportBody(rows)), '\n')
  {
    assert NoteBlock(None) == [];
    assert ReportText(rows, None) == ReportBody(rows);
  }
}
