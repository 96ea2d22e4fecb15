/** The investment portfolio page (portfolio.py): one client's holdings
    converted from dollars to rupees, the summary figures and the strategic
    advice built on them, the health score, and the ReportLab report with its
    line-by-line pagination. */
module Portfolio {
  import opened Wrappers
  import Seqs
  import Stats
  import Grouping
  import Text
  import Notes
  import Canvas

  /** The exchange rate the page applies to both amount columns. */
  const UsdToInr: real := 83.0

  /** One row of the portfolio table. */
  datatype Holding = Holding(
    userId: int,
    assetType: string,
    assetName: string,
    ticker: string,
    investmentAmount: real,
    currentValue: real,
    sector: string,
    riskLevel: string)

  // ---------------------------------------------------------------------
  // The client and the conversion to rupees
  // ---------------------------------------------------------------------

  /** `df[df['user_id'] == df['user_id'].iloc[0]]`: the rows of the user of
      the first row. */
  function ClientRows(rows: seq<Holding>): seq<Holding>
    requires |rows| > 0
  {
    var id := rows[0].userId;
    Seqs.Filter(rows, (h: Holding) => h.userId == id)
  }

  /** The client's rows are the first row followed by the other rows of the
      same user, in table order, and every row of that user is kept. */
  lemma ClientRowsSpec(rows: seq<Holding>)
    requires |rows| > 0
    ensures |ClientRows(rows)| > 0 && ClientRows(rows)[0] == rows[0]
    ensures forall i :: 0 <= i < |ClientRows(rows)| ==> ClientRows(rows)[i].userId == rows[0].userId
    ensures forall i :: 0 <= i < |rows| && rows[i].userId == rows[0].userId ==> rows[i] in ClientRows(rows)
    ensures Seqs.IsSubsequence(ClientRows(rows), rows)
    ensures var id := rows[0].userId;
      |ClientRows(rows)| == Seqs.Count(rows, (h: Holding) => h.userId == id)
  {
    var id := rows[0].userId;
    var keep := (h: Holding) => h.userId == id;
    assert Seqs.Filter(rows, keep) == [rows[0]] + Seqs.Filter(rows[1..], keep);
    Seqs.FilterMembers(rows, keep);
    Seqs.FilterIsSubsequence(rows, keep);
    Seqs.FilterLength(rows, keep);
  }

  /** A holding with both amounts multiplied by the exchange rate. */
  function InRupees(h: Holding): Holding
  {
    h.(investmentAmount := h.investmentAmount * UsdToInr, currentValue := h.currentValue * UsdToInr)
  }

  /** Every row in rupees. */
  function ToRupees(rows: seq<Holding>): (r: seq<Holding>)
    ensures |r| == |rows|
  {
    seq(|rows|, i requires 0 <= i < |rows| => InRupees(rows[i]))
  }

  /** The page's data frame, whose amount columns are updated in place. */
  class Frame {
    var rows: seq<Holding>

    constructor (rows: seq<Holding>)
      ensures this.rows == rows
    {
      this.rows := rows;
    }

    /** `df['investment_amount'] *= USD_TO_INR` followed by
        `df['current_value'] *= USD_TO_INR`. */
    method ConvertToRupees()
      modifies this
      ensures rows == ToRupees(old(rows))
    {
      var before := rows;
      rows := seq(|before|, i requires 0 <= i < |before| =>
        before[i].(investmentAmount := before[i].investmentAmount * UsdToInr));
      var scaled := rows;
      rows := seq(|scaled|, i requires 0 <= i < |scaled| =>
        scaled[i].(currentValue := scaled[i].currentValue * UsdToInr));
      assert forall i :: 0 <= i < |rows| ==> rows[i] == InRupees(before[i]);
    }
  }

  // ---------------------------------------------------------------------
  // Returns
  // ---------------------------------------------------------------------

  /** `(current_value - investment_amount) / investment_amount * 100`. */
  function ReturnPct(h: Holding): (r: real)
    requires h.investmentAmount != 0.0
    ensures r * h.investmentAmount == (h.currentValue - h.investmentAmount) * 100.0
  {
    Stats.PercentChange(h.investmentAmount, h.currentValue)
  }

  /** For a positive investment the return is positive exactly when the
      holding gained value, zero exactly when it kept its value. */
  lemma ReturnSign(h: Holding)
    requires h.investmentAmount > 0.0
    ensures ReturnPct(h) > 0.0 <==> h.currentValue > h.investmentAmount
    ensures ReturnPct(h) == 0.0 <==> h.currentValue == h.investmentAmount
  {
    Stats.PercentChangeSign(h.investmentAmount, h.currentValue);
  }

  /** The conversion scales both amounts alike, so it keeps every return. */
  lemma RupeesKeepReturn(h: Holding)
    requires h.investmentAmount != 0.0
    ensures InRupees(h).investmentAmount != 0.0
    ensures ReturnPct(InRupees(h)) == ReturnPct(h)
  {
    Stats.PercentChangeScale(h.investmentAmount, h.currentValue, UsdToInr);
  }

  /** `df['investment_amount']` and `df['current_value']`. */
  function Invested(rows: seq<Holding>): (c: seq<real>)
    ensures |c| == |rows| && forall i :: 0 <= i < |rows| ==> c[i] == rows[i].investmentAmount
  {
    Seqs.Map(rows, (h: Holding) => h.investmentAmount)
  }

  function Values(rows: seq<Holding>): (c: seq<real>)
    ensures |c| == |rows| && forall i :: 0 <= i < |rows| ==> c[i] == rows[i].currentValue
  {
    Seqs.Map(rows, (h: Holding) => h.currentValue)
  }

  function TotalInvestment(rows: seq<Holding>): real
  {
    Stats.Sum(Invested(rows))
  }

  function TotalValue(rows: seq<Holding>): real
  {
    Stats.Sum(Values(rows))
  }

  /** `(total_value - total_investment) / total_investment * 100`. */
  function TotalReturn(rows: seq<Holding>): (r: real)
    requires TotalInvestment(rows) != 0.0
    ensures r * TotalInvestment(rows) == (TotalValue(rows) - TotalInvestment(rows)) * 100.0
  {
    Stats.PercentChange(TotalInvestment(rows), TotalValue(rows))
  }

  /** For a positive total investment the net return is positive exactly when
      the portfolio is worth more than was put in, zero exactly when it is
      worth the same. */
  lemma TotalReturnSign(rows: seq<Holding>)
    requires TotalInvestment(rows) > 0.0
    ensures TotalReturn(rows) > 0.0 <==> TotalValue(rows) > TotalInvestment(rows)
    ensures TotalReturn(rows) == 0.0 <==> TotalValue(rows) == TotalInvestment(rows)
  {
    Stats.PercentChangeSign(TotalInvestment(rows), TotalValue(rows));
  }

  /** The conversion multiplies both totals by the rate and keeps the net
      return. */
  lemma RupeesKeepTotalReturn(rows: seq<Holding>)
    ensures TotalInvestment(ToRupees(rows)) == UsdToInr * TotalInvestment(rows)
    ensures TotalValue(ToRupees(rows)) == UsdToInr * TotalValue(rows)
    ensures TotalInvestment(rows) != 0.0 ==> TotalReturn(ToRupees(rows)) == TotalReturn(rows)
  {
    var conv := ToRupees(rows);
    Stats.SumPointwiseScale(Invested(rows), Invested(conv), UsdToInr);
    Stats.SumPointwiseScale(Values(rows), Values(conv), UsdToInr);
    if TotalInvestment(rows) != 0.0 {
      Stats.PercentChangeScale(TotalInvestment(rows), TotalValue(rows), UsdToInr);
    }
  }

  /** When every holding returns at least `lo` percent, the portfolio is
      worth at least `(1 + lo / 100)` times what was put in. */
  lemma ValueAtLeast(rows: seq<Holding>, lo: real)
    requires forall i :: 0 <= i < |rows| ==> rows[i].investmentAmount > 0.0
    requires forall i :: 0 <= i < |rows| ==> lo <= ReturnPct(rows[i])
    ensures (1.0 + lo / 100.0) * TotalInvestment(rows) <= TotalValue(rows)
  {
    var inv := Invested(rows);
    var vals := Values(rows);
    var k := 1.0 + lo / 100.0;
    forall i | 0 <= i < |rows| ensures k * inv[i] <= vals[i] {
      RowAtLeast(rows[i], lo, k);
    }
    Stats.SumAtLeast(inv, vals, k);
  }

  lemma RowAtLeast(h: Holding, lo: real, k: real)
    requires h.investmentAmount > 0.0 && lo <= ReturnPct(h) && k == 1.0 + lo / 100.0
    ensures k * h.investmentAmount <= h.currentValue
  {
    Stats.PercentChangeAtLeast(h.investmentAmount, h.currentValue, lo);
  }

  /** When every holding returns at most `hi` percent, the portfolio is
      worth at most `(1 + hi / 100)` times what was put in. */
  lemma ValueAtMost(rows: seq<Holding>, hi: real)
    requires forall i :: 0 <= i < |rows| ==> rows[i].investmentAmount > 0.0
    requires forall i :: 0 <= i < |rows| ==> ReturnPct(rows[i]) <= hi
    ensures TotalValue(rows) <= (1.0 + hi / 100.0) * TotalInvestment(rows)
  {
    var inv := Invested(rows);
    var vals := Values(rows);
    var k := 1.0 + hi / 100.0;
    forall i | 0 <= i < |rows| ensures vals[i] <= k * inv[i] {
      RowAtMost(rows[i], hi, k);
    }
    Stats.SumAtMost(inv, vals, k);
  }

  lemma RowAtMost(h: Holding, hi: real, k: real)
    requires h.investmentAmount > 0.0 && ReturnPct(h) <= hi && k == 1.0 + hi / 100.0
    ensures h.currentValue <= k * h.investmentAmount
  {
    Stats.PercentChangeAtMost(h.investmentAmount, h.currentValue, hi);
  }

  /** The net return is an investment-weighted mean of the holdings' returns:
      when every holding has a positive investment and a return between `lo`
      and `hi`, so has the whole portfolio. */
  lemma TotalReturnBetween(rows: seq<Holding>, lo: real, hi: real)
    requires |rows| > 0
    requires forall i :: 0 <= i < |rows| ==> rows[i].investmentAmount > 0.0
    requires forall i :: 0 <= i < |rows| ==> lo <= ReturnPct(rows[i]) <= hi
    ensures TotalInvestment(rows) > 0.0
    ensures lo <= TotalReturn(rows) <= hi
  {
    PositiveSum(Invested(rows));
    ValueAtLeast(rows, lo);
    ValueAtMost(rows, hi);
    Stats.PercentChangeAtLeast(TotalInvestment(rows), TotalValue(rows), lo);
    Stats.PercentChangeAtMost(TotalInvestment(rows), TotalValue(rows), hi);
  }

  /** A non-empty column of positive amounts has a positive sum. */
  lemma {:induction false} PositiveSum(xs: seq<real>)
    requires |xs| > 0
    requires forall i :: 0 <= i < |xs| ==> xs[i] > 0.0
    ensures Stats.Sum(xs) > 0.0
    decreases |xs|
  {
    if |xs| > 1 {
      PositiveSum(xs[1..]);
    }
  }

  // ---------------------------------------------------------------------
  // Risk and health
  // ---------------------------------------------------------------------

  const High: string := "High"

  predicate IsHigh(h: Holding)
  {
    h.riskLevel == High
  }

  /** `df['risk_level'].value_counts(normalize=True).get('High', 0)`. */
  function HighRiskRatio(rows: seq<Holding>): (r: real)
    requires |rows| > 0
    ensures 0.0 <= r <= 1.0
    ensures r * |rows| as real == Seqs.Count(rows, IsHigh) as real
  {
    Stats.Share(Seqs.Count(rows, IsHigh), |rows|)
  }

  /** The ratio is 0 exactly when no holding is labelled "High" (the `get`
      default) and 1 exactly when every holding is. */
  lemma HighRiskRatioSpec(rows: seq<Holding>)
    requires |rows| > 0
    ensures HighRiskRatio(rows) == 0.0 <==> forall i :: 0 <= i < |rows| ==> !IsHigh(rows[i])
    ensures HighRiskRatio(rows) == 1.0 <==> forall i :: 0 <= i < |rows| ==> IsHigh(rows[i])
  {
    Seqs.CountPositive(rows, IsHigh);
    Seqs.CountAll(rows, IsHigh);
    Stats.ShareOrder(Seqs.Count(rows, IsHigh), |rows|);
  }

  /** `(1 - high_risk_ratio) * 100`. */
  function RiskScore(ratio: real): (s: real)
    ensures 0.0 <= ratio <= 1.0 ==> 0.0 <= s <= 100.0
    ensures s + ratio * 100.0 == 100.0
  {
    (1.0 - ratio) * 100.0
  }

  /** `total_return * 0.7 + risk_score * 0.3`. */
  function HealthScore(totalReturn: real, riskScore: real): real
  {
    totalReturn * 0.7 + riskScore * 0.3
  }

  /** The health score is a weighted mean of its two parts: between 0 and 100
      when both are, rising with the return and with the risk score. */
  lemma HealthScoreBounds(r1: real, r2: real, s1: real, s2: real)
    ensures 0.0 <= r1 <= 100.0 && 0.0 <= s1 <= 100.0 ==> 0.0 <= HealthScore(r1, s1) <= 100.0
    ensures r1 <= r2 ==> HealthScore(r1, s1) <= HealthScore(r2, s1)
    ensures s1 <= s2 ==> HealthScore(r1, s1) <= HealthScore(r1, s2)
  {
  }

  /** The portfolio's health score. */
  function PortfolioHealth(rows: seq<Holding>): real
    requires |rows| > 0 && TotalInvestment(rows) != 0.0
  {
    HealthScore(TotalReturn(rows), RiskScore(HighRiskRatio(rows)))
  }

  /** Without any "High" holding the risk part adds 30 points to 0.7 times
      the return; with only "High" holdings it adds nothing. */
  lemma PortfolioHealthExtremes(rows: seq<Holding>)
    requires |rows| > 0 && TotalInvestment(rows) != 0.0
    ensures (forall i :: 0 <= i < |rows| ==> !IsHigh(rows[i])) ==>
      PortfolioHealth(rows) == TotalReturn(rows) * 0.7 + 30.0
    ensures (forall i :: 0 <= i < |rows| ==> IsHigh(rows[i])) ==>
      PortfolioHealth(rows) == TotalReturn(rows) * 0.7
  {
    HighRiskRatioSpec(rows);
  }

  /** Of two portfolios of the same size and the same net return, the one
      with more "High" holdings never has the higher health score. */
  lemma PortfolioHealthByRisk(rows: seq<Holding>, other: seq<Holding>)
    requires |rows| > 0 && TotalInvestment(rows) != 0.0
    requires |other| == |rows| && TotalInvestment(other) != 0.0
    requires TotalReturn(other) == TotalReturn(rows)
    requires Seqs.Count(rows, IsHigh) <= Seqs.Count(other, IsHigh)
    ensures PortfolioHealth(other) <= PortfolioHealth(rows)
  {
    Stats.ShareMonotone(Seqs.Count(rows, IsHigh), Seqs.Count(other, IsHigh), |rows|);
    var a := HighRiskRatio(rows);
    var b := HighRiskRatio(other);
    HealthScoreBounds(TotalReturn(rows), TotalReturn(rows), RiskScore(b), RiskScore(a));
  }

  // ---------------------------------------------------------------------
  // Top sector and the strategic advice
  // ---------------------------------------------------------------------

  /** (sector, current value) per holding, the input of
      `groupby('sector')['current_value'].sum()`. */
  function SectorValues(rows: seq<Holding>): (e: seq<(string, real)>)
    ensures |e| == |rows|
    ensures forall i :: 0 <= i < |rows| ==> e[i] == (rows[i].sector, rows[i].currentValue)
  {
    seq(|rows|, i requires 0 <= i < |rows| => (rows[i].sector, rows[i].currentValue))
  }

  /** `df.groupby('sector')['current_value'].sum().idxmax()`. */
  function TopSector(rows: seq<Holding>): string
    requires |rows| > 0
  {
    var entries := SectorValues(rows);
    var totals := Grouping.Totals(entries);
    Grouping.TotalsSpec(entries);
    assert Grouping.Occurs(entries, entries[0].0);
    totals[Grouping.MaxIndex(totals)].0
  }

  /** The top sector is the sector of some holding, and no sector's summed
      current value exceeds its own. */
  lemma TopSectorSpec(rows: seq<Holding>)
    requires |rows| > 0
    ensures exists i :: 0 <= i < |rows| && rows[i].sector == TopSector(rows)
    ensures forall i :: 0 <= i < |rows| ==>
      Grouping.SumFor(SectorValues(rows), rows[i].sector) <= Grouping.SumFor(SectorValues(rows), TopSector(rows))
  {
    var entries := SectorValues(rows);
    var totals := Grouping.Totals(entries);
    Grouping.TotalsSpec(entries);
    assert Grouping.Occurs(entries, entries[0].0);
    var m := Grouping.MaxIndex(totals);
    assert Grouping.Occurs(totals, totals[m].0);
    var i :| 0 <= i < |entries| && entries[i].0 == totals[m].0;
    assert rows[i].sector == TopSector(rows);
    forall j | 0 <= j < |rows|
      ensures Grouping.SumFor(entries, rows[j].sector) <= Grouping.SumFor(entries, TopSector(rows))
    {
      assert Grouping.Occurs(entries, rows[j].sector) by {
        assert entries[j].0 == rows[j].sector;
      }
      var k :| 0 <= k < |totals| && totals[k].0 == rows[j].sector;
    }
  }

  const Diversify: string := "Consider diversifying into low-risk instruments for better stability."
  const WellBalanced: string := "Your portfolio is well balanced. Continue monitoring market trends."

  /** The closing sentence of the strategic insight. */
  function Advice(ratio: real): string
  {
    if ratio > 0.5 then Diversify else WellBalanced
  }

  /** The ratio exceeds one half exactly when more than half of the holdings
      are labelled "High". */
  lemma RatioAboveHalf(rows: seq<Holding>)
    requires |rows| > 0
    ensures HighRiskRatio(rows) > 0.5 <==> 2 * Seqs.Count(rows, IsHigh) > |rows|
  {
    Stats.ShareOrder(Seqs.Count(rows, IsHigh), |rows|);
  }

  /** The page advises diversifying exactly when more than half of the
      holdings are labelled "High", and otherwise calls the portfolio well
      balanced. */
  lemma AdviceIff(rows: seq<Holding>)
    requires |rows| > 0
    ensures Advice(HighRiskRatio(rows)) == if 2 * Seqs.Count(rows, IsHigh) > |rows| then Diversify else WellBalanced
  {
    RatioAboveHalf(rows);
  }

  // ---------------------------------------------------------------------
  // generate_pdf
  // ---------------------------------------------------------------------

  /** The figures the report prints, already formatted. */
  datatype ShownPortfolio = ShownPortfolio(
    clientId: string,
    totalInvestment: string,
    totalValue: string,
    totalReturn: string,
    topSector: string,
    healthScore: string)

  /** `user_id`, `f"{total:,.0f}"` for the two totals, `round(…, 2)` printed
      for the net return and the health score, and the top sector. */
  function ShownOf(rows: seq<Holding>): ShownPortfolio
    requires |rows| > 0 && TotalInvestment(rows) != 0.0
  {
    ShownPortfolio(
      Text.IntToString(rows[0].userId),
      Text.WholeWithCommas(TotalInvestment(rows)),
      Text.WholeWithCommas(TotalValue(rows)),
      Text.RoundedRepr(TotalReturn(rows)),
      TopSector(rows),
      Text.RoundedRepr(PortfolioHealth(rows)))
  }

  const Title: string := "FinTalk Portfolio Report"
  const DetailsHeading: string := "Portfolio Details"
  const NoteHeading: string := "Advisor Note:"

  /** U+27A1 BLACK RIGHTWARDS ARROW between the two amounts of a holding. */
  const Arrow: char := '\U{27A1}'

  /** The six summary lines under the title. */
  function HeaderLines(s: ShownPortfolio): (lines: seq<string>)
    ensures |lines| == 6
  {
    [ "Client ID: " + s.clientId,
      "Total Investment (Rs.): " + s.totalInvestment,
      "Current Value (Rs.): " + s.totalValue,
      "Net Return (%): " + s.totalReturn + "%",
      "Top Sector: " + s.topSector,
      "Health Score: " + s.healthScore + "/100" ]
  }

  /** One holding's line of the details section, amounts truncated with
      `int()`. */
  function DetailLine(h: Holding): string
  {
    h.assetType + " | " + h.assetName + " (" + h.ticker + ") | Rs."
      + Text.IntToString(Text.Truncate(h.investmentAmount)) + " " + [Arrow]
      + " Rs." + Text.IntToString(Text.Truncate(h.currentValue))
      + " | " + h.sector + " | " + h.riskLevel
  }

  /** The details section's lines, one per holding in table order. */
  function DetailLines(rows: seq<Holding>): (lines: seq<string>)
    ensures |lines| == |rows|
    ensures forall i :: 0 <= i < |rows| ==> lines[i] == DetailLine(rows[i])
  {
    seq(|rows|, i requires 0 <= i < |rows| => DetailLine(rows[i]))
  }

  /** The first page down to the details heading: the title at (200,
      height - 50), the summary lines 20 points apart from height - 100 at
      x = 50, and after a 40-point gap the details heading. */
  function TopOfReport(s: ShownPortfolio, height: int): (d: seq<Canvas.Drawn>)
    ensures |d| == 8
  {
    var h := HeaderLines(s);
    [ Canvas.Drawn(0, 200, height - 50, Title),
      Canvas.Drawn(0, 50, height - 100, h[0]),
      Canvas.Drawn(0, 50, height - 120, h[1]),
      Canvas.Drawn(0, 50, height - 140, h[2]),
      Canvas.Drawn(0, 50, height - 160, h[3]),
      Canvas.Drawn(0, 50, height - 180, h[4]),
      Canvas.Drawn(0, 50, height - 200, h[5]),
      Canvas.Drawn(0, 50, height - 240, DetailsHeading) ]
  }

  /** Where the details loop starts. */
  function DetailsStart(height: int): Canvas.Cursor
  {
    Canvas.Cursor(0, height - 260)
  }

  /** The note section after the details loop left the cursor at `c`: none
      without a note file; otherwise the heading 30 points lower (with no
      page check) and the note's `splitlines()` through the guarded loop at
      x = 60. */
  function NoteSection(note: Option<string>, c: Canvas.Cursor, height: int): seq<Canvas.Drawn>
  {
    if note.None? then []
    else
      [Canvas.Drawn(c.page, 50, c.y - 30, NoteHeading)]
        + Canvas.GuardedLines(Text.SplitLines(note.value), 60, Canvas.Cursor(c.page, c.y - 45), height).0
  }

  /** Everything `generate_pdf` draws, in order, for the stored note `note`. */
  function PortfolioPdf(s: ShownPortfolio, details: seq<string>, note: Option<string>, height: int): seq<Canvas.Drawn>
  {
    var d := Canvas.GuardedLines(details, 50, DetailsStart(height), height);
    TopOfReport(s, height) + d.0 + NoteSection(note, d.1, height)
  }

  /** `generate_pdf()`: draws the report on a fresh canvas. The note section
      is read from the note file itself, not from the text area. */
  method GeneratePdf(shown: ShownPortfolio, rows: seq<Holding>, slot: Notes.Slot<string>, height: int)
    returns (sheet: Canvas.Sheet)
    ensures fresh(sheet)
    ensures sheet.drawn == PortfolioPdf(shown, DetailLines(rows), slot.stored, height)
  {
    sheet := new Canvas.Sheet();
    var y := DrawTop(sheet, shown, height);
    y := Canvas.DrawGuarded(sheet, DetailLines(rows), 50, y, height);
    DrawNoteSection(sheet, slot, y, height);
  }

  /** The title, the summary lines and the details heading; the cursor is
      left 20 points under the heading. */
  method DrawTop(sheet: Canvas.Sheet, shown: ShownPortfolio, height: int) returns (y: int)
    requires sheet.drawn == [] && sheet.page == 0
    modifies sheet
    ensures sheet.drawn == TopOfReport(shown, height)
    ensures Canvas.Cursor(sheet.page, y) == DetailsStart(height)
  {
    sheet.DrawString(200, height - 50, Title);
    var header := HeaderLines(shown);
    y := height - 100;
    sheet.DrawString(50, y, header[0]);
    y := y - 20;
    sheet.DrawString(50, y, header[1]);
    y := y - 20;
    sheet.DrawString(50, y, header[2]);
    y := y - 20;
    sheet.DrawString(50, y, header[3]);
    y := y - 20;
    sheet.DrawString(50, y, header[4]);
    y := y - 20;
    sheet.DrawString(50, y, header[5]);
    y := y - 40;
    sheet.DrawString(50, y, DetailsHeading);
    y := y - 20;
  }

  /** `if os.path.exists(NOTE_PATH)`: the unchecked heading 30 points down,
      then the note's lines through the guarded loop. */
  method DrawNoteSection(sheet: Canvas.Sheet, slot: Notes.Slot<string>, y0: int, height: int)
    modifies sheet
    ensures sheet.drawn == old(sheet.drawn) + NoteSection(slot.stored, Canvas.Cursor(old(sheet.page), y0), height)
  {
    if slot.Exists() {
      var note := slot.Load("");
      ghost var start, page := sheet.drawn, sheet.page;
      var y := y0 - 30;
      sheet.DrawString(50, y, NoteHeading);
      ghost var heading := [Canvas.Drawn(page, 50, y, NoteHeading)];
      y := y - 15;
      var lines := Text.SplitLines(note);
      ghost var body := Canvas.GuardedLines(lines, 60, Canvas.Cursor(page, y), height).0;
      y := Canvas.DrawGuarded(sheet, lines, 60, y, height);
      assert sheet.drawn == (start + heading) + body;
      assert NoteSection(slot.stored, Canvas.Cursor(page, y0), height) == heading + body;
      Seqs.AppendAssoc(start, heading, body);
    }
  }

  /** The report's length and its first eight strings: the title, the
      summary and the details heading; then one string per holding and,
      only when a note file exists, the note heading and one string per
      `splitlines()` line of the note. */
  lemma PdfFrame(s: ShownPortfolio, details: seq<string>, note: Option<string>, height: int)
    ensures var pdf := PortfolioPdf(s, details, note, height);
      && |pdf| == 8 + |details| + (if note.Some? then 1 + |Text.SplitLines(note.value)| else 0)
      && pdf[..8] == TopOfReport(s, height)
  {
    var d := Canvas.GuardedLines(details, 50, DetailsStart(height), height);
    var pdf := PortfolioPdf(s, details, note, height);
    assert pdf[..8] == TopOfReport(s, height);
  }

  /** The holdings follow the eight header strings, in order, at x = 50. */
  lemma PdfDetails(s: ShownPortfolio, details: seq<string>, note: Option<string>, height: int)
    ensures var pdf := PortfolioPdf(s, details, note, height);
      && |pdf| >= 8 + |details|
      && forall i :: 0 <= i < |details| ==> pdf[8 + i].text == details[i] && pdf[8 + i].x == 50
  {
    var d := Canvas.GuardedLines(details, 50, DetailsStart(height), height);
    Canvas.GuardedLinesInOrder(details, 50, DetailsStart(height), height);
    PdfIsParts(s, details, note, height);
    LinesBetween(TopOfReport(s, height), d.0, NoteSection(note, d.1, height), details, 50);
  }

  /** When a note file exists, the note heading follows the holdings, and
      then one string per `splitlines()` line of the note, in order, at
      x = 60. */
  lemma PdfNote(s: ShownPortfolio, details: seq<string>, note: Option<string>, height: int)
    requires note.Some?
    ensures var pdf := PortfolioPdf(s, details, note, height);
      && |pdf| == 9 + |details| + |Text.SplitLines(note.value)|
      && pdf[8 + |details|].text == NoteHeading
      && forall j :: 9 + |details| <= j < |pdf| ==>
           pdf[j].text == Text.SplitLines(note.value)[j - 9 - |details|] && pdf[j].x == 60
  {
    var d := Canvas.GuardedLines(details, 50, DetailsStart(height), height);
    PdfIsParts(s, details, note, height);
    NoteSectionAt(PortfolioPdf(s, details, note, height), TopOfReport(s, height) + d.0, note, d.1, height,
                  8 + |details|);
  }

  /** A note section placed after `n` strings: its heading at `n`, then one
      string per line of the note, in order, at x = 60. */
  lemma NoteSectionAt(pdf: seq<Canvas.Drawn>, front: seq<Canvas.Drawn>, note: Option<string>,
                      c: Canvas.Cursor, height: int, n: nat)
    requires note.Some? && pdf == front + NoteSection(note, c, height) && |front| == n
    ensures |pdf| == n + 1 + |Text.SplitLines(note.value)| && pdf[n].text == NoteHeading
    ensures forall j :: n < j < |pdf| ==> pdf[j].text == Text.SplitLines(note.value)[j - n - 1] && pdf[j].x == 60
  {
    var lines := Text.SplitLines(note.value);
    var next := Canvas.Cursor(c.page, c.y - 45);
    NoteSectionIsParts(note, c, height);
    Canvas.GuardedLinesInOrder(lines, 60, next, height);
    HeadingThenLines(pdf, front, Canvas.Drawn(c.page, 50, c.y - 30, NoteHeading),
                     Canvas.GuardedLines(lines, 60, next, height).0, lines, 60, n);
  }

  /** The report is its header, the holdings and the note section. */
  lemma PdfIsParts(s: ShownPortfolio, details: seq<string>, note: Option<string>, height: int)
    ensures PortfolioPdf(s, details, note, height)
      == TopOfReport(s, height) + Canvas.GuardedLines(details, 50, DetailsStart(height), height).0
         + NoteSection(note, Canvas.GuardedLines(details, 50, DetailsStart(height), height).1, height)
  { }

  /** A note section that exists is its heading followed by its lines. */
  lemma NoteSectionIsParts(note: Option<string>, c: Canvas.Cursor, height: int)
    requires note.Some?
    ensures NoteSection(note, c, height)
      == [Canvas.Drawn(c.page, 50, c.y - 30, NoteHeading)]
         + Canvas.GuardedLines(Text.SplitLines(note.value), 60, Canvas.Cursor(c.page, c.y - 45), height).0
  { }

  /** In `pdf == front + ([heading] + drawn)`, with `n` strings in `front`,
      the heading sits at `n` and the lines of `drawn` follow it, in order,
      at column `x`. */
  lemma HeadingThenLines(pdf: seq<Canvas.Drawn>, front: seq<Canvas.Drawn>, heading: Canvas.Drawn,
                         drawn: seq<Canvas.Drawn>, lines: seq<string>, x: int, n: nat)
    requires pdf == front + ([heading] + drawn) && |front| == n
    requires |drawn| == |lines|
    requires forall i :: 0 <= i < |lines| ==> drawn[i].text == lines[i] && drawn[i].x == x
    ensures |pdf| == n + 1 + |lines| && pdf[n] == heading
    ensures forall j :: n < j < |pdf| ==> pdf[j].text == lines[j - n - 1] && pdf[j].x == x
  {
    forall j | n < j < |pdf| ensures pdf[j] == drawn[j - n - 1] { }
  }

  /** In `front + drawn + back`, the lines of `drawn` sit right after
      `front`, in order, at column `x`. */
  lemma LinesBetween(front: seq<Canvas.Drawn>, drawn: seq<Canvas.Drawn>, back: seq<Canvas.Drawn>,
                     lines: seq<string>, x: int)
    requires |drawn| == |lines|
    requires forall i :: 0 <= i < |lines| ==> drawn[i].text == lines[i] && drawn[i].x == x
    ensures var s := front + drawn + back;
      && |s| == |front| + |lines| + |back| && s[..|front|] == front
      && forall i :: 0 <= i < |lines| ==> s[|front| + i].text == lines[i] && s[|front| + i].x == x
  {
    var s := front + drawn + back;
    assert s[..|front|] == front;
  }

  /** On a page at least 305 points high nothing is drawn below y = 15:
      every holding and every note line lands at y >= 60, and the unchecked
      note heading at least 15 points above the bottom edge. */
  lemma PdfAboveBottom(s: ShownPortfolio, details: seq<string>, note: Option<string>, height: int)
    requires height >= 305
    ensures var pdf := PortfolioPdf(s, details, note, height);
      && (forall i :: 0 <= i < |pdf| ==> pdf[i].y >= 15)
      && (forall i :: 8 <= i < |pdf| && i != 8 + |details| ==> pdf[i].y >= 60)
  {
    var pdf := PortfolioPdf(s, details, note, height);
    var d := Canvas.GuardedLines(details, 50, DetailsStart(height), height);
    Canvas.GuardedLinesAbove(details, 50, DetailsStart(height), height);
    var notePart := NoteSection(note, d.1, height);
    assert pdf == TopOfReport(s, height) + d.0 + notePart;
    if note.Some? {
      var c := Canvas.Cursor(d.1.page, d.1.y - 45);
      var lines := Text.SplitLines(note.value);
      Canvas.GuardedLinesAbove(lines, 60, c, height);
      var g := Canvas.GuardedLines(lines, 60, c, height).0;
      assert notePart == [Canvas.Drawn(d.1.page, 50, d.1.y - 30, NoteHeading)] + g;
      forall i | 8 + |details| < i < |pdf| ensures pdf[i].y >= 60 {
        assert pdf[i] == g[i - 9 - |details|];
      }
    }
    forall i | 8 <= i < 8 + |details| ensures pdf[i].y >= 60 {
      assert pdf[i] == d.0[i - 8];
    }
  }

  /** The note heading is not paginated: on a letter page, 32 holdings fill
      the first page down to y = 67 and leave the cursor at 52, so the
      heading lands at y = 22, below the 60-point margin the loops keep. */
  lemma NoteHeadingBelowMargin(s: ShownPortfolio, details: seq<string>, note: string)
    requires |details| == 32
    ensures var pdf := PortfolioPdf(s, details, Some(note), Canvas.LetterHeight);
      |pdf| > 40 && pdf[40] == Canvas.Drawn(0, 50, 22, NoteHeading)
  {
    Canvas.GuardedLinesNoBreak(details, 50, DetailsStart(Canvas.LetterHeight), Canvas.LetterHeight);
    var d := Canvas.GuardedLines(details, 50, DetailsStart(Canvas.LetterHeight), Canvas.LetterHeight);
    assert d.1 == Canvas.Cursor(0, 52);
  }

  /** Without a note file the report ends with the last holding, and adding
      a note only appends to it. */
  lemma NoNoteNoSection(s: ShownPortfolio, details: seq<string>, note: Option<string>, height: int)
    ensures |PortfolioPdf(s, details, None, height)| == 8 + |details|
    ensures PortfolioPdf(s, details, None, height) <= PortfolioPdf(s, details, note, height)
  {
  }
}
