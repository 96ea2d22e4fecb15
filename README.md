# FinTalk-Pro pages in Dafny

This project models the computing core of the five Streamlit pages of
FinTalk-Pro. It proves properties of that model with the Dafny verifier.

- **Credit score** (`CreditScore`): the 18-line credit story for one profile and its verdict lines. Also the PDF text, with the optional advisor note behind a rule and heading.
- **Personal dashboard** (`PersonalData`):
  - column-name normalisation;
  - the monthly summary and utilisation status boxes;
  - the groceries status column;
  - spending by category;
  - the report text with its note block, the PDF lines;
  - the session-state note panel.
- **Risk analyser** (`Risk`):
  - the user filter;
  - the eight threshold sections;
  - anomaly days;
  - the ordered recommendation list;
  - the JSON note file;
  - the cells of the risk report.
- **Portfolio** (`Portfolio`):
  - the client filter;
  - the in-place USD to INR conversion;
  - returns and totals;
  - the high-risk ratio, risk and health scores;
  - the top sector and the advice sentence;
  - the ReportLab PDF with its check-before-draw pagination.
- **Trend analysis** (`Trend`):
  - the Income/Expense label;
  - the date and category filters;
  - the cumulative balance in time order;
  - the outliers and their status box;
  - the ReportLab PDF with its check-after-step pagination.

Shared modules:
- `Text`: Python's `strip`, `split`, `splitlines`, `join`, number formatting and `lower`.
- `Sanitize`: the two emoji sanitisers.
- `Stats`: sums, means, cumsum, ratios and percent changes over exact reals.
- `Seqs`: filters, `head`, counts, permutations.
- `Grouping`: `groupby().sum()`, `sort_values()`, `idxmax()`.
- `Canvas`: a ReportLab canvas reduced to the strings drawn on it, and the two pagination loops.
- `Notes`: a note slot standing for a file that may exist, and the text panel shared by three pages.
- `Banners`: the status boxes.

A data frame is a sequence of row datatypes, and a column is a function of
the row. Numbers are exact reals. A derived column added to a frame becomes
a function of the rows, except where the page updates a frame in place: that
is `Portfolio.Frame`, whose `rows` field `ConvertToRupees` reassigns. The
note file is `Notes.Slot<T>`, a class holding `Option<T>` (`None` = no file).
The canvas is `Canvas.Sheet`, a class holding the drawn strings and the page
number. Its draw methods are proved against functions listing what they draw.

## Model

| member | source | states |
|---|---|---|
| CreditScore.Utilization | credit_score.py:15 | utilisation times the limit is the used credit times 100 |
| CreditScore.HighUtilizationMeansUsed | credit_score.py:20 | with a positive limit, utilisation above 30 iff more than 30% of the limit is used |
| CreditScore.StoryLines | credit_score.py:17-35 | the story has exactly 18 lines |
| CreditScore.StoryLinesInOrder | credit_score.py:17-35 | splitting the story on newlines gives its 18 lines in order plus the empty piece after the last newline |
| CreditScore.UtilizationVerdict | credit_score.py:20 | the high-utilisation warning iff utilisation > 30; the all-clear line otherwise |
| CreditScore.MissedPaymentsVerdict | credit_score.py:24 | the missed-payments flag with the printed count iff the count is positive; "No missed payments." otherwise |
| CreditScore.CreditAgeVerdict | credit_score.py:27 | "Short credit history." iff the age is below 24 months |
| CreditScore.InquiriesVerdict | credit_score.py:31 | the inquiries warning iff inquiries > 2; an empty line otherwise |
| CreditScore.OnTimeVerdict | credit_score.py:34 | the on-time warning iff the percentage is below 85 |
| CreditScore.GeneratePdfReport | credit_score.py:55-66 | the loop emits one cell per `\n`-piece of the sanitised full text, in order |
| CreditScore.CleanSeparator | credit_score.py:62 | sanitising the note separator removes only the pushpin |
| CreditScore.CleanFullText | credit_score.py:60-64 | sanitising story + separator + note is sanitising each part |
| CreditScore.PdfLinesLayout | credit_score.py:60-65 | blank stripped note: the PDF lines are the sanitised story's lines; otherwise those, then "", the rule, "", the heading without its pushpin, then the sanitised note's lines |
| CreditScore.ClearedNoteOmitted | credit_score.py:181-189 | the empty note left by Clear adds nothing to the PDF |
| Notes.TextPanel | credit_score.py:162-185 | the text area starts from the saved note ("" without a file) unless the user typed; Save stores the text; Clear deletes the file and returns "" |
| Notes.Slot.Save | portfolio.py:119-120 | after saving, the file exists and holds exactly the text written |
| Notes.Slot.Clear | portfolio.py:125-126 | after clearing, no file exists |
| Sanitize.CleanCredit | credit_score.py:41-53 | no output code point is in the seven ranges, and none is the rupee sign or an en dash |
| Sanitize.CleanCreditPerChar | credit_score.py:41-53 | the credit sanitiser rewrites each code point on its own, in order |
| Sanitize.CleanCreditAppend | credit_score.py:41-53 | sanitising a concatenation is concatenating the sanitised pieces |
| Sanitize.CleanCreditPlain | credit_score.py:41-53 | printable ASCII and newlines pass unchanged |
| Sanitize.CleanCreditFixesSafe | credit_score.py:41-53 | text without a listed code point, rupee or en dash is unchanged |
| Sanitize.CleanCreditIdempotent | credit_score.py:41-53 | sanitising twice equals sanitising once |
| Sanitize.CleanDashboard | personal_data.py:96-106 | no output code point is in the six ranges or is the rupee sign |
| Sanitize.CleanDashboardPerChar | personal_data.py:96-106 | the dashboard sanitiser rewrites each code point on its own, in order; the `+` of the pattern changes nothing |
| Sanitize.CleanDashboardAppend | personal_data.py:96-106 | sanitising a concatenation is concatenating the sanitised pieces |
| Sanitize.CleanDashboardKeepsEnDash | personal_data.py:96-106 | the dashboard sanitiser keeps an en dash where it is |
| Sanitize.CleanDashboardPlain | personal_data.py:96-106 | printable ASCII and newlines pass unchanged |
| Sanitize.CleanDashboardFixesSafe | personal_data.py:96-106 | text without a listed code point or rupee is unchanged |
| Sanitize.CleanDashboardIdempotent | personal_data.py:96-106 | sanitising twice equals sanitising once |
| Text.StripBlank | credit_score.py:61 | `strip()` gives "" iff the text is all whitespace; otherwise the result neither starts nor ends with whitespace |
| Text.StripIsSlice | credit_score.py:60 | `strip()` returns a contiguous slice of its argument |
| Text.StripIdempotent | credit_score.py:60 | stripping twice equals stripping once |
| Text.SplitPieces | credit_score.py:64 | the pieces of `split(sep)` hold no separator |
| Text.JoinSplit | credit_score.py:64 | joining the pieces of `split(sep)` with `sep` restores the text |
| Text.SplitJoin | credit_score.py:64 | splitting a join of separator-free pieces restores the pieces |
| Text.SplitLinesNoBreaks | portfolio.py:195 | no `splitlines()` piece holds a line boundary |
| Text.SplitLinesKeepsText | portfolio.py:195 | `splitlines()` pieces end to end are the text with its line boundaries removed |
| Text.ParseNatToString | risk.py:232 | `str(n)` of a count reads back as `n` |
| Text.FixedShape | credit_score.py:19 | `f"{x:.2f}"` is an optional "-", digits, a point and exactly two digits |
| Text.WholeWithCommasPlain | portfolio.py:162 | removing the commas from `f"{x:,.0f}"` gives `f"{x:.0f}"` |
| Text.ThousandsRemoveCommas | portfolio.py:162 | the thousands separators are commas inserted between the digits and nothing else |
| Text.TrimZeros | portfolio.py:166 | the printed round value is a prefix of the fixed form and only zeros are dropped; the result never ends in a 0 that could still go (one not right after the point), and a shortened result never ends in a bare point, so "10.00" prints as "10.0" |
| Text.TrimZerosUnique | portfolio.py:166 | any string meeting those four conditions is the trimmed form, so they determine the printed value |
| PersonalData.NormalizeColumnSpec | personal_data.py:30 | a normalised column name has no space and no upper-case ASCII letter, is as long as the stripped name, and is empty iff the name is blank |
| PersonalData.NormalizeColumnIdempotent | personal_data.py:30 | normalising twice equals normalising once |
| PersonalData.NetSavings | personal_data.py:41 | net savings times the row count is total income minus total expenses |
| PersonalData.OverspendingShownIff | personal_data.py:48-51 | the overspending error iff total expenses exceed total income; the saving message otherwise |
| PersonalData.UtilizationTotal | personal_data.py:61 | the mean utilisation times the row count is the column total |
| PersonalData.UtilizationWarningIff | personal_data.py:63-66 | the warning iff the utilisation column sums to more than 30 per row; the healthy box otherwise |
| PersonalData.HealthyRowsHealthy | personal_data.py:63-66 | if every row is at most 30 the box is the healthy one |
| PersonalData.GroceryStatusSpec | personal_data.py:150-153 | exactly one of three labels: Over Budget iff spent > budget; Near Limit iff not over but above 80%; Under Budget otherwise |
| PersonalData.GroceryStatusMonotone | personal_data.py:150-153 | for a non-negative budget, spending more never lowers the label |
| PersonalData.GroceriesStatusColumnSpec | personal_data.py:150-153 | row i of the column is Over Budget iff row i overspent, and every label is one of the three |
| PersonalData.TopCategoriesSpec | personal_data.py:76 | categories ascend by summed amount, each category once, each with the sum of its rows |
| PersonalData.TopCategoriesKeys | personal_data.py:55 | the listed categories are exactly the categories in the table |
| PersonalData.GenerateReportText | personal_data.py:71-94 | the built report equals the metrics lines, one line per sorted category, the utilisation line, and the note block |
| PersonalData.WriteCategoryLines | personal_data.py:83-84 | the loop appends one ` - cat: Rs.amt` line per category, in order |
| PersonalData.AppendNote | personal_data.py:87-92 | the note block is appended after the body |
| PersonalData.NoteBlockIff | personal_data.py:87-92 | the note block is present iff the file exists and its stripped text is not empty, and it follows the whole body |
| PersonalData.ReportBodyInOrder | personal_data.py:78-85 | with newline-free category names, the body splits into title, metrics, heading, one line per ascending category, the utilisation line, then "" |
| PersonalData.GeneratePdfReport | personal_data.py:108-115 | one cell per `\n`-piece of the sanitised report, in order |
| PersonalData.NoteBlockLayout | personal_data.py:88-113 | with a note block, the PDF lines are the body's lines, the rule, the heading without its pushpin, the note's lines and "" |
| PersonalData.PdfLinesLayout | personal_data.py:108-115 | as above, for the page's table and note file |
| PersonalData.NoteSession.Run | personal_data.py:163-189 | the first run loads the file into `note_content`; the area shows it unless typed; Save writes both; Clear removes the file and empties `note_content` |
| PersonalData.ClearedNoteOmitted | personal_data.py:185-195 | after Clear the report and PDF hold only the body |
| Risk.UserRowsSpec | risk.py:23 | the page sees exactly the rows of user 1017, in file order: a subsequence of the table as long as the number of such rows |
| Risk.ProgressSpec | risk.py:35 | the progress value is at most 1; the utilisation fraction below 100%; full from 100% on |
| Risk.UtilizationWarningIff | risk.py:34-42 | the warning iff the utilisation column sums to more than 30 per row |
| Risk.RepaymentRatios | risk.py:48 | the `repayment_ratio` column is payment over income, row by row |
| Risk.RepaymentErrorIff | risk.py:49-56 | the burden error iff the ratios sum to more than 0.4 per row |
| Risk.OverBudgetCountSpec | risk.py:62-63 | the count lies in 0..rows, is the number of rows the mask keeps, and is positive iff some row overspent |
| Risk.OverBudgetWarningIff | risk.py:65-69 | the warning iff some row is over budget |
| Risk.VolatilityWarningIff | risk.py:78-86 | for a positive mean income the warning iff std > mean / 4 |
| Risk.AnomaliesSpec | risk.py:92 | the anomaly table holds exactly the large, foreign or unusual-time rows, in order, with as many rows as there are such rows |
| Risk.AnomalyBannerIff | risk.py:94-99 | the error box iff some row is large, foreign or at an unusual time, and it prints the number of such rows; otherwise the all-clear box |
| Risk.DayCountOfAnomalies | risk.py:142 | counting a date's rows in the anomaly table counts that date's anomalous rows |
| Risk.DailyAnomaliesCounts | risk.py:142 | every daily entry is its date's number of anomalous rows |
| Risk.DailyAnomaliesCover | risk.py:142 | every date of an anomalous row has an entry |
| Risk.HighRiskDaysSpec | risk.py:141-147 | the high-risk days are exactly the dates with more than two anomalies, with their counts, each date once, in ascending date order as the sorted `groupby` index lists them |
| Grouping.SortByKey | risk.py:142 | the sorted `groupby` index: a permutation, ascending in key |
| Grouping.SortByKeyStrict | risk.py:142-143 | sorting pairs with distinct keys by key gives strictly ascending keys, each once |
| Grouping.FilterKeepsDistinct | risk.py:143 | a row filter of a grouping keeps its keys distinct |
| Grouping.PermutationKeepsDistinct | risk.py:142 | reordering a grouping keeps its keys distinct |
| Risk.LowBalanceRowsSpec | risk.py:105-106 | the low-balance rows are exactly those with balance below mean expenses, in order; their number, which the page prints and the >5 rule reads, is the number of such rows |
| Risk.LowBalanceWarningIff | risk.py:108-111 | the warning iff some balance is below the mean monthly expenses, and it prints the number of low-balance records; otherwise the sufficient-balance box |
| Risk.UniqueAlertsSpec | risk.py:117-120 | alert types exist iff some row has an alert, so the report's guarded `nunique()` is the number of distinct types |
| Risk.EmiErrorIff | risk.py:130-135 | the overload error iff the mean EMI count exceeds 5, that is iff the counts total more than 5 per row; the error box is exactly the siren, the mean to one decimal and the overload text, and otherwise the box is exactly the check mark, the healthy-range text and the mean |
| Risk.BuildRecommendations | risk.py:156-167 | the append sequence yields the recommendation list for the figures |
| Risk.RecommendationsDistinct | risk.py:159-167 | the five recommendation texts are different |
| Risk.RecommendationsInOrder | risk.py:156-167 | the list keeps the fixed order of the five and has at most five entries |
| Risk.RecommendationIff | risk.py:158-167 | recommendation k is listed iff rule k holds |
| Risk.RecommendationsIff | risk.py:158-167 | each rule's text is in the list iff its rule holds; minimum-balance advice needs more than five low-balance records |
| Risk.HealthyIffNoRule | risk.py:169-173 | the healthy message iff no rule holds |
| Risk.FewLowBalanceRecordsNoAdvice | risk.py:108-165 | one to five low-balance records give the balance warning but no minimum-balance advice |
| Risk.NoteDocumentRoundTrip | risk.py:183-194 | `{"note": n}` reads back as n; a document without the key reads as "" |
| Risk.NotePanel | risk.py:181-202 | load the JSON note ("" without a file), show it unless typed; Save writes `{"note": note}`; Clear deletes the file and returns "" |
| Risk.PdfNoteTextSpec | risk.py:269 | the note cell is never empty: "" becomes the fallback sentence, any other note (blank ones included) prints as it is |
| Risk.RiskPdfLayout | risk.py:209-272 | after the title every report has the same 19 cells: the nine section headings at fixed positions in page order and no other headings, and last the note cell, which prints the note, or the fallback sentence when the note is "" |
| Risk.ClearedNoteFallback | risk.py:198-201 | after Clear the report prints the fallback sentence |
| Portfolio.ClientRowsSpec | portfolio.py:29-30 | the client's rows start with the first row, all share its user id, every such row is kept, in order, and their number is the number of such rows |
| Portfolio.Frame.ConvertToRupees | portfolio.py:33-34 | the frame's rows become the rows with both amounts times 83 |
| Portfolio.ReturnPct | portfolio.py:35 | the return times the investment is the gain times 100 |
| Portfolio.ReturnSign | portfolio.py:35 | for a positive investment the return is positive iff the value exceeds it, zero iff equal |
| Portfolio.RupeesKeepReturn | portfolio.py:33-35 | the conversion keeps every holding's return |
| Portfolio.TotalReturn | portfolio.py:46 | the net return times total investment is the total gain times 100 |
| Portfolio.TotalReturnSign | portfolio.py:46 | for a positive total investment the net return is positive iff the value exceeds it |
| Portfolio.RupeesKeepTotalReturn | portfolio.py:33-46 | the conversion multiplies both totals by 83 and keeps the net return |
| Portfolio.ValueAtLeast | portfolio.py:44-45 | when every holding returns at least lo%, the total value is at least (1 + lo/100) times the investment |
| Portfolio.ValueAtMost | portfolio.py:44-45 | when every holding returns at most hi%, the total value is at most (1 + hi/100) times the investment |
| Portfolio.TotalReturnBetween | portfolio.py:44-46 | the net return lies between the smallest and largest holding returns (a weighted mean) |
| Portfolio.HighRiskRatio | portfolio.py:48 | the ratio lies in [0, 1] and times the row count is the number of "High" rows |
| Portfolio.HighRiskRatioSpec | portfolio.py:48 | the ratio is 0 iff no holding is "High" and 1 iff all are |
| Portfolio.RiskScore | portfolio.py:97 | risk score plus 100 times the ratio is 100; in [0, 100] for a ratio in [0, 1] |
| Portfolio.HealthScoreBounds | portfolio.py:98 | parts in [0, 100] give a score in [0, 100]; the score is monotone in each part |
| Portfolio.PortfolioHealthExtremes | portfolio.py:97-98 | with no "High" holding the risk part adds 30; with all "High" it adds 0 |
| Portfolio.PortfolioHealthByRisk | portfolio.py:97-98 | at equal size and net return, fewer "High" holdings never lower the score |
| Portfolio.TopSectorSpec | portfolio.py:47 | the top sector belongs to some holding, and no sector's summed value exceeds its sum |
| Portfolio.RatioAboveHalf | portfolio.py:92 | ratio > 0.5 iff more than half the holdings are "High" |
| Portfolio.AdviceIff | portfolio.py:92 | diversifying advice iff more than half the holdings are "High"; the well-balanced sentence otherwise |
| Portfolio.GeneratePdf | portfolio.py:150-204 | the canvas gets the title, the header, the guarded details loop, and the note section iff a note file exists |
| Portfolio.DrawTop | portfolio.py:155-175 | the title and six summary lines 20 points apart, then the details heading 40 points lower |
| Portfolio.DrawNoteSection | portfolio.py:186-200 | with a note file: the heading 30 points down with no check, then the guarded loop at x = 60 |
| Portfolio.PdfFrame | portfolio.py:150-204 | the report is 8 header strings, one string per holding, and the heading plus one string per note line iff a note file exists |
| Portfolio.PdfDetails | portfolio.py:177-183 | the holdings follow the 8 header strings, one per holding, in order, at x = 50 |
| Portfolio.PdfNote | portfolio.py:186-200 | with a note file the heading follows the holdings and then each `splitlines()` line of the note, in order, at x = 60, ending the report |
| Portfolio.NoteSectionAt | portfolio.py:190-200 | a note section after n strings puts the heading at n and the note lines after it, in order, at x = 60 |
| Portfolio.PdfAboveBottom | portfolio.py:177-200 | on a page at least 305 high, holdings and note lines lie at y >= 60 and the unchecked heading at y >= 15 |
| Portfolio.NoteHeadingBelowMargin | portfolio.py:191-192 | 32 holdings on letter paper put the unchecked heading at y = 22, under the 60-point margin |
| Portfolio.NoNoteNoSection | portfolio.py:186 | without a note file the report ends with the last holding; a note only appends |
| Canvas.DrawGuarded | portfolio.py:177-183 | check-before-draw loop: the strings drawn and the final cursor are those of `GuardedLines` |
| Canvas.GuardedLinesInOrder | portfolio.py:177-183 | one string per line, in order, at column x |
| Canvas.GuardedLinesAbove | portfolio.py:178-180 | every line is drawn at y >= 60 on a page at least 110 high |
| Canvas.GuardedLinesSpacing | portfolio.py:182-183 | consecutive lines on the same page are 15 points apart; a new page restarts at height - 50 |
| Canvas.GuardedLinesNoBreak | portfolio.py:178-183 | above the margin the loop stays on its page and moves down 15 per line |
| Canvas.DrawChecked | trend.py:125-130 | check-after-step loop: the strings drawn and the final cursor are those of `CheckedLines` |
| Canvas.CheckedLinesInOrder | trend.py:125-126 | one string per line, in order, first at the starting cursor |
| Canvas.CheckedLinesAbove | trend.py:127-130 | every line but the first is drawn at y >= 50, and the loop ends at y >= 50 |
| Canvas.CheckedLinesNoBreak | trend.py:127-130 | above 50 + 15 per line, no page break and the cursor moves 15 per line |
| Grouping.KeysOfSpec | personal_data.py:76 | the grouping keys are distinct and are exactly the keys present |
| Grouping.TotalsSpec | personal_data.py:76 | one total per key, equal to the sum of that key's amounts |
| Grouping.SortByAmount | personal_data.py:76 | `sort_values()` is a permutation, ascending in amount |
| Grouping.SortKeepsDistinct | personal_data.py:76 | sorting keeps keys distinct |
| Grouping.MaxIndex | portfolio.py:47 | `idxmax` gives the first position of a largest amount |
| Stats.CumSumIsPrefixSum | trend.py:59 | cumsum entry i is the sum of entries 0..i; the last is the total |
| Stats.SumPermutation | trend.py:58-59 | reordering a column keeps its sum |
| Stats.MeanBounds | personal_data.py:61 | a mean lies between a lower and an upper bound of its entries |
| Stats.Share | portfolio.py:48 | share times the count is the part; in [0, 1] when the part is at most the whole |
| Stats.ShareOrder | portfolio.py:48 | share > 1/2 iff twice the part exceeds the whole; 0 iff the part is 0; 1 iff all |
| Stats.PercentChange | portfolio.py:35 | the percent change times the base is 100 times the difference |
| Seqs.FilterWeaker | trend.py:83 | a weaker mask keeps a supersequence and at least as many rows |
| Seqs.MapPermutation | trend.py:58 | mapping a permutation gives a permutation |
| Seqs.Filter | risk.py:23 | a boolean mask keeps no more rows than it is given, and every kept row satisfies it |
| Seqs.Head | trend.py:141 | `head(n)` keeps the first min(n, rows) rows unchanged |
| Stats.Mean | personal_data.py:61 | the mean times the row count is the column total |
| Text.Lower | personal_data.py:30 | `lower()` keeps the length and lowers each character on its own |
| Text.NatToString | risk.py:232 | `str(n)` is a non-empty run of digits with no leading zero |
| Text.RoundHalfEven | credit_score.py:19 | the rounded integer is within one half of the value, and on a tie it is the even neighbour |
| Trend.TypeOf | trend.py:27 | "Income" iff the amount is positive; "Expense" iff it is zero or negative |
| Trend.SelectedSpec | trend.py:39-43 | the two masks equal one combined mask; the result is a subsequence holding exactly the rows in [start, end] (inclusive) with a selected category |
| Trend.DayKeyOrder | trend.py:39 | on valid dates, the day number orders as the calendar does and is injective |
| Trend.MomentKeyOrder | trend.py:58 | on valid timestamps, the sort key orders as the timestamps do |
| Trend.Chronological | trend.py:58 | the sorted rows are a permutation of the rows with ascending sort keys |
| Trend.ChronologicalSpec | trend.py:58 | for valid timestamps the sorted rows are in timestamp order |
| Trend.CumulativeBalanceSpec | trend.py:58-59 | entry i of the cumulative balance is the sum of the first i + 1 amounts in time order; the last is the total of all amounts |
| Trend.OutliersSpec | trend.py:83 | the outliers are, in order, exactly the rows with abs(amount) > threshold (strict); their number, which the page prints, is the number of such rows |
| Trend.OutliersMonotone | trend.py:83 | a higher threshold keeps a subsequence of the outliers, never more |
| Trend.OutlierBanner | trend.py:84-88 | the warning iff some outlier exists; the success box iff none |
| Trend.OutlierLines | trend.py:141-142 | min(count, 20) lines: line i describes outlier i |
| Trend.CreatePdf | trend.py:104-151 | the canvas gets exactly `TrendPdf` for the report and the note |
| Trend.DrawNote | trend.py:120-131 | for a non-blank note: the heading, the checked loop 20 points lower, then a 10-point gap; nothing otherwise |
| Trend.DrawCountsAndRows | trend.py:133-147 | the threshold and count lines 20 points apart, then the checked loop over the rows 50 points below the threshold |
| Trend.PdfFrame | trend.py:104-147 | the report has 5 + k + (number of rows) strings, where k is 0 for a blank note and 1 + its line count otherwise; the first three are the header, and the threshold and count come right after the k note strings |
| Trend.NotePartLayout | trend.py:120-131 | the note section is empty for a blank note; otherwise the heading, then the note's lines in order at x = 50 |
| Trend.PdfNoteLines | trend.py:104-131 | for a non-blank note the heading follows the header, then the note's lines in order at x = 50 |
| Trend.PdfRows | trend.py:140-147 | the outlier rows come last, in order, at x = 50 |
| Trend.BlankNoteOmitted | trend.py:120 | a blank note gives no note section |
| Trend.ClearThenPdf | trend.py:162-169 | Clear deletes the file and the regenerated PDF has no note section |
| Trend.FirstOutlierOffPage | trend.py:131-143 | a 40-line note on letter paper puts the threshold at y = 42, the count at 22 and the first outlier row at y = -8 |
| Trend.FixedSameStrings | trend.py:140-147 | the corrected report draws the same strings in the same order |
| Trend.FixedRowsOnPage | trend.py:140-147 | in the corrected report every outlier row is at y >= 50 and nothing is below y = 20 on a page at least 190 high |

## Left out

- Reading the CSV files, the `st.*` widgets, charts (`st.bar_chart`, matplotlib, plotly), page config, auto-refresh, fonts and the latin-1 encoding of the PDF bytes. These are I/O or rendering. The inputs of the model are the rows and the user's actions.
- The failure of the strict latin-1 encoding. personal_data.py:115 and risk.py:272 call `.encode('latin1')` without an error handler, so a character outside latin-1 that reaches the PDF raises `UnicodeEncodeError` and the download fails. Examples are an en dash, which the personal-data sanitiser keeps, or any emoji in the risk note, which is written unsanitised. The model treats the cells as the output and does not model this failure. credit_score.py:66 uses `errors='replace'` and does not fail.
- The Hugging Face summariser ("Final Analysis") on every page. It is a foreign call.
- Floating point. Numbers are exact reals; `f"{x:.Nf}"` is modelled with round-half-to-even on the exact value.
- `Text.RoundedRepr`: Python's `str(round(x, 2))` prints the shortest float repr. The model prints the two-decimal form with trailing zeros dropped. The two agree for values with at most two decimals. Exponent notation is not modelled.
- `Trend.OutlierLine`: the amount `Rs.{amount}` is printed with `Text.RoundedRepr`, the same approximation of Python's float repr. This assumes a float column. `pd.to_numeric` (trend.py:25) leaves a column of whole numbers as int64, which prints `Rs.-30000` where the model prints `Rs.-30000.0`.
- `Portfolio.Frame.ConvertToRupees`: the per-row `.round(2)` of the return column is not modelled. The health score and net return do not read that column.
- `PortfolioHealth` rounds after weighting, with `round(…, 2)`. The model keeps the exact value; the bounds and monotonicity lemmas are about that exact value.
- `Portfolio.TotalReturn`: the source's `total_return` is already `round(…, 2)` (portfolio.py:46), and `health_score` is computed from that rounded figure. The model's `TotalReturn` is the exact net return, and `PortfolioHealth` and `ShownOf` use it. The printed net return matches, because `ShownOf` rounds it to two decimals; the health score can differ from the source's by the rounding of the net return times 0.7.
- Empty tables and zero denominators. Where pandas would give NaN or Python would raise ZeroDivisionError, the model takes `requires` clauses: non-empty rows, non-zero limit, investment or mean.
- The row order of `groupby` in `Grouping.Totals`. pandas sorts the keys, but `Totals` keeps them in order of first appearance. `Risk.HighRiskDays` sorts its result by date with `Grouping.SortByKey`, so it lists the days as pandas does. The other consumers re-sort (`sort_values`) or take the maximum, so only ties can differ. With tied maxima, the model's `idxmax` picks the first key in order of first appearance, while pandas picks the smallest key.
- Stability of `sort_values`. pandas' default quicksort is not stable. The model sorts stably (insertion sort), so ties in timestamp or amount may come out in another order.
- `Trend.ValidTxn`: validity of calendar dates beyond month 1..12 and day 1..31 (for example 31 February) is not checked. The timestamp order lemmas assume only those ranges. Timestamps with fractional seconds and their printed form are not modelled.
- The `time_bucket` column, the `agg_data` grouping, the Income/Expense chart toggle and its `strftime` grouping in trend.py. These only feed charts.
- The `dashboard_text` summary in portfolio.py lines 133-147. It only feeds the summariser.
- ReportLab `setFont` calls. Fonts do not change what is drawn or where.
- Python `str.lower()` is modelled for ASCII letters only; `strip()` uses Python's whitespace set; no Unicode normalisation.

## Findings

| source | as written | input that shows it | evidently intended | confidence | as-written member | corrected member |
|---|---|---|---|---|---|---|
| trend.py:131-147 | after the note loop, the threshold line, the count line and the first outlier row are drawn with no page check. The loop's own check comes only after each line is drawn. | a 40-line advisor note and at least one outlier, on letter paper: threshold at y = 42, count at y = 22, first outlier row at y = -8 (below the page) | every outlier row on the page at y >= 50, as the loop's check keeps for the later rows | not executed; high (the arithmetic is exact) | Trend.FirstOutlierOffPage | Trend.FixedRowsOnPage |

The corrected report `Trend.TrendPdfFixed` adds one check before the
outlier loop: if the cursor is already under 50, start a new page at
height - 40. `Trend.FixedSameStrings` proves it draws the same strings in
the same order. `Trend.CreatePdf` and `Trend.ClearThenPdf` stay faithful to
the code as written.
