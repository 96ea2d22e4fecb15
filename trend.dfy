/** The trend-analysis page (trend.py): the Income/Expense label, the date
    and category filters, the cumulative balance in time order, the outlier
    filter and its status box, and the PDF report with the advisor note. */
module Trend {
  import opened Wrappers
  import Seqs
  import Stats
  import Grouping
  import Text
  import Notes
  import Canvas
  import Banners

  // ---------------------------------------------------------------------
  // Transactions
  // ---------------------------------------------------------------------

  /** A calendar date (`datetime.date`). */
  datatype Date = Date(year: nat, month: nat, day: nat)

  /** A time of day. */
  datatype Clock = Clock(hour: nat, minute: nat, second: nat)

  /** One row of the transactions table: `transaction_datetime` (the date
      and time columns joined), merchant, amount and category. */
  datatype Txn = Txn(date: Date, time: Clock, merchant: string, amount: real, category: string)

  /** The field ranges every pandas timestamp respects. */
  ghost predicate ValidDate(d: Date)
  {
    1 <= d.month <= 12 && 1 <= d.day <= 31
  }

  ghost predicate ValidClock(c: Clock)
  {
    c.hour < 24 && c.minute < 60 && c.second < 60
  }

  ghost predicate ValidTxn(t: Txn)
  {
    ValidDate(t.date) && ValidClock(t.time)
  }

  const Income: string := "Income"
  const Expense: string := "Expense"

  /** The `type` column: "Income" for a positive amount, "Expense" for
      everything else, a zero amount included. */
  function TypeOf(amount: real): (kind: string)
    ensures kind == Income <==> amount > 0.0
    ensures kind == Expense <==> amount <= 0.0
  {
    if amount > 0.0 then Income else Expense
  }

  // ---------------------------------------------------------------------
  // Date and category filters
  // ---------------------------------------------------------------------

  /** Python's comparison of dates: year, then month, then day. */
  predicate DateLe(a: Date, b: Date)
  {
    a.year < b.year || (a.year == b.year && (a.month < b.month || (a.month == b.month && a.day <= b.day)))
  }

  /** `start_date <= date <= end_date`, both ends included. */
  predicate InRange(t: Txn, start: Date, end: Date)
  {
    DateLe(start, t.date) && DateLe(t.date, end)
  }

  /** `transaction_category.isin(categories)`. */
  predicate InCategories(t: Txn, categories: seq<string>)
  {
    t.category in categories
  }

  /** The two masks applied one after the other, as the page does. */
  function Selected(rows: seq<Txn>, start: Date, end: Date, categories: seq<string>): seq<Txn>
  {
    Seqs.Filter(Seqs.Filter(rows, t => InRange(t, start, end)), t => InCategories(t, categories))
  }

  /** The filtered table keeps, in order, exactly the rows dated between the
      two dates inclusive whose category is selected. */
  lemma SelectedSpec(rows: seq<Txn>, start: Date, end: Date, categories: seq<string>)
    ensures Selected(rows, start, end, categories)
      == Seqs.Filter(rows, t => InRange(t, start, end) && InCategories(t, categories))
    ensures Seqs.IsSubsequence(Selected(rows, start, end, categories), rows)
    ensures forall t :: (t in Selected(rows, start, end, categories)
      <==> t in rows && InRange(t, start, end) && t.category in categories)
  {
    var both := t => InRange(t, start, end) && InCategories(t, categories);
    Seqs.FilterFilter(rows, t => InRange(t, start, end), t => InCategories(t, categories), both);
    Seqs.FilterIsSubsequence(rows, both);
    Seqs.FilterMembers(rows, both);
    var s := Seqs.Filter(rows, both);
    forall t | t in s ensures t in rows && both(t) {
      var i :| 0 <= i < |s| && s[i] == t;
    }
    forall t | t in rows && both(t) ensures t in s {
      var i :| 0 <= i < |rows| && rows[i] == t;
    }
  }

  // ---------------------------------------------------------------------
  // Cumulative balance
  // ---------------------------------------------------------------------

  /** A day number that grows with the calendar order of valid dates. */
  function DayKey(d: Date): int
  {
    (d.year * 12 + d.month - 1) * 31 + d.day - 1
  }

  /** Seconds since the start of day 0: the order of `transaction_datetime`. */
  function MomentKey(t: Txn): int
  {
    DayKey(t.date) * 86400 + t.time.hour * 3600 + t.time.minute * 60 + t.time.second
  }

  predicate ClockLe(a: Clock, b: Clock)
  {
    a.hour < b.hour || (a.hour == b.hour && (a.minute < b.minute || (a.minute == b.minute && a.second <= b.second)))
  }

  /** Timestamp order: the date first, the time of day on the same date. */
  predicate MomentLe(a: Txn, b: Txn)
  {
    DateLe(a.date, b.date) && (a.date == b.date ==> ClockLe(a.time, b.time))
  }

  /** On valid dates the day number orders as the calendar does. */
  lemma DayKeyOrder(a: Date, b: Date)
    requires ValidDate(a) && ValidDate(b)
    ensures DateLe(a, b) <==> DayKey(a) <= DayKey(b)
    ensures DayKey(a) == DayKey(b) ==> a == b
  {
    if a.year < b.year {
      assert DayKey(a) <= (a.year * 12 + 11) * 31 + 30;
      assert (a.year * 12 + 11) * 31 + 30 < b.year * 12 * 31;
    } else if b.year < a.year {
      assert DayKey(b) <= (b.year * 12 + 11) * 31 + 30;
      assert (b.year * 12 + 11) * 31 + 30 < a.year * 12 * 31;
    }
  }

  /** On valid timestamps the key orders as the timestamps do. */
  lemma MomentKeyOrder(a: Txn, b: Txn)
    requires ValidTxn(a) && ValidTxn(b)
    ensures MomentLe(a, b) <==> MomentKey(a) <= MomentKey(b)
  {
    DayKeyOrder(a.date, b.date);
    var sa := a.time.hour * 3600 + a.time.minute * 60 + a.time.second;
    var sb := b.time.hour * 3600 + b.time.minute * 60 + b.time.second;
    assert 0 <= sa < 86400 && 0 <= sb < 86400;
    if a.date == b.date {
      assert ClockLe(a.time, b.time) <==> sa <= sb;
    } else if DayKey(a.date) < DayKey(b.date) {
      assert MomentKey(a) < DayKey(a.date) * 86400 + 86400 <= MomentKey(b);
    } else {
      assert MomentKey(b) < DayKey(b.date) * 86400 + 86400 <= MomentKey(a);
    }
  }

  /** The rows paired with their sort key. */
  function Keyed(rows: seq<Txn>): seq<(Txn, real)>
  {
    Seqs.Map(rows, t => (t, MomentKey(t) as real))
  }

  /** `sort_values("transaction_datetime")`: the same rows, in ascending
      timestamp order. */
  function Chronological(rows: seq<Txn>): (r: seq<Txn>)
    ensures |r| == |rows|
    ensures multiset(r) == multiset(rows)
    ensures forall i, j :: 0 <= i < j < |r| ==> MomentKey(r[i]) <= MomentKey(r[j])
  {
    var keyed := Keyed(rows);
    var sorted := Grouping.SortByAmount(keyed);
    var r := Seqs.Map(sorted, (p: (Txn, real)) => p.0);
    Seqs.MapPermutation(sorted, keyed, (p: (Txn, real)) => p.0);
    assert Seqs.Map(keyed, (p: (Txn, real)) => p.0) == rows;
    forall i | 0 <= i < |sorted| ensures sorted[i].1 == MomentKey(sorted[i].0) as real {
      assert sorted[i] in multiset(keyed);
      var k :| 0 <= k < |keyed| && keyed[k] == sorted[i];
    }
    r
  }

  /** The amounts in time order. */
  function ChronologicalAmounts(rows: seq<Txn>): seq<real>
  {
    Seqs.Map(Chronological(rows), (t: Txn) => t.amount)
  }

  /** `cumulative_balance`: `amount.cumsum()` over the time-sorted rows. */
  function CumulativeBalance(rows: seq<Txn>): seq<real>
  {
    Stats.CumSum(ChronologicalAmounts(rows))
  }

  /** The sorted table holds every row once and lists valid timestamps in
      order. */
  lemma ChronologicalSpec(rows: seq<Txn>)
    requires forall i :: 0 <= i < |rows| ==> ValidTxn(rows[i])
    ensures multiset(Chronological(rows)) == multiset(rows)
    ensures forall i, j :: 0 <= i < j < |rows| ==> MomentLe(Chronological(rows)[i], Chronological(rows)[j])
  {
    var r := Chronological(rows);
    forall i | 0 <= i < |r| ensures ValidTxn(r[i]) {
      assert r[i] in multiset(rows);
      var k :| 0 <= k < |rows| && rows[k] == r[i];
    }
    forall i, j | 0 <= i < j < |r| ensures MomentLe(r[i], r[j]) {
      MomentKeyOrder(r[i], r[j]);
    }
  }

  /** Entry `i` of the cumulative balance is the sum of the first `i + 1`
      amounts in time order, and the last entry is the total of all amounts,
      whatever order the table was in. */
  lemma CumulativeBalanceSpec(rows: seq<Txn>)
    ensures |CumulativeBalance(rows)| == |rows|
    ensures forall i :: 0 <= i < |rows| ==>
      CumulativeBalance(rows)[i] == Stats.Sum(ChronologicalAmounts(rows)[..i + 1])
    ensures rows != [] ==>
      CumulativeBalance(rows)[|rows| - 1] == Stats.Sum(Seqs.Map(rows, (t: Txn) => t.amount))
  {
    var sorted := Chronological(rows);
    var amounts := ChronologicalAmounts(rows);
    Stats.CumSumIsPrefixSum(amounts);
    Seqs.MapPermutation(sorted, rows, (t: Txn) => t.amount);
    Stats.SumPermutation(amounts, Seqs.Map(rows, (t: Txn) => t.amount));
  }

  // ---------------------------------------------------------------------
  // Outliers
  // ---------------------------------------------------------------------

  /** `amount.abs() > threshold`, strictly. */
  predicate IsOutlier(t: Txn, threshold: int)
  {
    Text.Abs(t.amount) > threshold as real
  }

  function Outliers(rows: seq<Txn>, threshold: int): seq<Txn>
  {
    Seqs.Filter(rows, t => IsOutlier(t, threshold))
  }

  /** The outliers are, in order, exactly the rows whose absolute amount
      exceeds the threshold; an amount equal to it is not one. */
  lemma OutliersSpec(rows: seq<Txn>, threshold: int)
    ensures Seqs.IsSubsequence(Outliers(rows, threshold), rows)
    ensures forall i :: 0 <= i < |Outliers(rows, threshold)| ==>
      Text.Abs(Outliers(rows, threshold)[i].amount) > threshold as real
    ensures forall i :: 0 <= i < |rows| && Text.Abs(rows[i].amount) > threshold as real ==>
      rows[i] in Outliers(rows, threshold)
    ensures |Outliers(rows, threshold)| == Seqs.Count(rows, t => IsOutlier(t, threshold))
  {
    Seqs.FilterIsSubsequence(rows, t => IsOutlier(t, threshold));
    Seqs.FilterMembers(rows, t => IsOutlier(t, threshold));
    Seqs.FilterLength(rows, t => IsOutlier(t, threshold));
  }

  /** Raising the threshold never adds an outlier: the outliers at the
      higher threshold are a subsequence of those at the lower one. */
  lemma OutliersMonotone(rows: seq<Txn>, lo: int, hi: int)
    requires lo <= hi
    ensures Seqs.IsSubsequence(Outliers(rows, hi), Outliers(rows, lo))
    ensures |Outliers(rows, hi)| <= |Outliers(rows, lo)|
  {
    Seqs.FilterWeaker(rows, t => IsOutlier(t, hi), t => IsOutlier(t, lo));
    Seqs.FilterLength(rows, t => IsOutlier(t, hi));
    Seqs.FilterLength(rows, t => IsOutlier(t, lo));
  }

  /** The status box under the slider: a warning with the number of
      outliers when there are some, a success box when there are none. */
  function OutlierBanner(outliers: seq<Txn>): (b: Banners.Banner)
    ensures b.Warning? <==> |outliers| > 0
    ensures b.Success? <==> |outliers| == 0
  {
    if |outliers| > 0 then
      Banners.Warning([Banners.WarningSign, Banners.Vs16] + " Detected "
        + Text.NatToString(|outliers|) + " potential anomalies:")
    else Banners.Success("No anomalies detected.")
  }

  // ---------------------------------------------------------------------
  // create_pdf
  // ---------------------------------------------------------------------

  /** A number left-padded with zeros to two digits. */
  function Pad2(n: nat): string
  {
    Text.ZeroPad(Text.NatToString(n), 2)
  }

  /** `str(date)`: YYYY-MM-DD. */
  function DateText(d: Date): string
  {
    Text.ZeroPad(Text.NatToString(d.year), 4) + "-" + Pad2(d.month) + "-" + Pad2(d.day)
  }

  /** `str(timestamp)` of a whole-second timestamp: YYYY-MM-DD HH:MM:SS. */
  function StampText(t: Txn): string
  {
    DateText(t.date) + " " + Pad2(t.time.hour) + ":" + Pad2(t.time.minute) + ":" + Pad2(t.time.second)
  }

  /** One outlier's line of the report. */
  function OutlierLine(t: Txn): string
  {
    StampText(t) + " | " + t.merchant + " | Rs." + Text.RoundedRepr(t.amount) + " | " + t.category
  }

  /** The report lists at most the first 20 outliers (`head(20)`). */
  const RowCap: nat := 20

  function OutlierLines(outliers: seq<Txn>): (lines: seq<string>)
    ensures |lines| == if |outliers| < RowCap then |outliers| else RowCap
    ensures forall i :: 0 <= i < |lines| ==> lines[i] == OutlierLine(outliers[i])
  {
    Seqs.Map(Seqs.Head(outliers, RowCap), OutlierLine)
  }

  /** The strings of the report other than the note, already formatted. */
  datatype Report = Report(range: string, categories: string, threshold: string, count: string, rows: seq<string>)

  /** The report's strings for the page's selections and outliers. */
  function ReportOf(start: Date, end: Date, categories: seq<string>, threshold: int, outliers: seq<Txn>): Report
  {
    Report(
      "Selected Date Range: " + DateText(start) + " to " + DateText(end),
      "Selected Categories: " + Text.JoinWith(categories, ", "),
      "Anomaly Threshold: " + Text.IntToString(threshold),
      "Anomalies Detected: " + Text.NatToString(|outliers|),
      OutlierLines(outliers))
  }

  const Title: string := "FinTalk Pro: Financial Trend Analysis"
  const NoteHeading: string := "Advisor Note:"

  /** The title at height - 40, then 30 points down the date range and 20
      points further the categories, all at x = 40. */
  function Top(r: Report, height: int): seq<Canvas.Drawn>
  {
    [ Canvas.Drawn(0, 40, height - 40, Title),
      Canvas.Drawn(0, 40, height - 70, r.range),
      Canvas.Drawn(0, 40, height - 90, r.categories) ]
  }

  /** Where the cursor is after the categories line. */
  function NoteStart(height: int): Canvas.Cursor
  {
    Canvas.Cursor(0, height - 120)
  }

  /** The note section from cursor `c`: nothing for a blank note; otherwise
      the heading, the `splitlines()` lines through the checked loop at
      x = 50 from 20 points lower, and a further 10-point gap. */
  function NotePart(note: string, c: Canvas.Cursor, height: int): (seq<Canvas.Drawn>, Canvas.Cursor)
  {
    if Text.Strip(note) == [] then ([], c)
    else
      var l := Canvas.CheckedLines(Text.SplitLines(note), 50, Canvas.Cursor(c.page, c.y - 20), height);
      ([Canvas.Drawn(c.page, 40, c.y, NoteHeading)] + l.0, Canvas.Cursor(l.1.page, l.1.y - 10))
  }

  /** The threshold and the count, 20 points apart, with no page check. */
  function Counts(r: Report, c: Canvas.Cursor): seq<Canvas.Drawn>
  {
    [Canvas.Drawn(c.page, 40, c.y, r.threshold), Canvas.Drawn(c.page, 40, c.y - 20, r.count)]
  }

  /** Everything `create_pdf(note_text)` draws, in order: the outlier rows
      go through the checked loop 50 points under the threshold line. */
  function TrendPdf(r: Report, note: string, height: int): seq<Canvas.Drawn>
  {
    var n := NotePart(note, NoteStart(height), height);
    Top(r, height) + n.0 + Counts(r, n.1)
      + Canvas.CheckedLines(r.rows, 50, Canvas.Cursor(n.1.page, n.1.y - 50), height).0
  }

  /** `create_pdf(note_text)` on a fresh canvas. */
  method CreatePdf(r: Report, note: string, height: int) returns (sheet: Canvas.Sheet)
    ensures fresh(sheet)
    ensures sheet.drawn == TrendPdf(r, note, height)
  {
    sheet := new Canvas.Sheet();
    var y := height - 40;
    sheet.DrawString(40, y, Title);
    y := y - 30;
    sheet.DrawString(40, y, r.range);
    y := y - 20;
    sheet.DrawString(40, y, r.categories);
    y := y - 30;
    y := DrawNote(sheet, note, y, height);
    DrawCountsAndRows(sheet, r, y, height);
  }

  /** `if note_text.strip():` the heading, the checked loop over the lines
      and the 10-point gap. */
  method DrawNote(sheet: Canvas.Sheet, note: string, y0: int, height: int) returns (y: int)
    modifies sheet
    ensures var n := NotePart(note, Canvas.Cursor(old(sheet.page), y0), height);
      sheet.drawn == old(sheet.drawn) + n.0 && Canvas.Cursor(sheet.page, y) == n.1
  {
    y := y0;
    if Text.Strip(note) != [] {
      sheet.DrawString(40, y, NoteHeading);
      y := y - 20;
      y := Canvas.DrawChecked(sheet, Text.SplitLines(note), 50, y, height);
      y := y - 10;
    }
  }

  /** The threshold and count lines, then `if not outliers.empty:` the
      checked loop over the outlier rows. */
  method DrawCountsAndRows(sheet: Canvas.Sheet, r: Report, y0: int, height: int)
    modifies sheet
    ensures sheet.drawn == old(sheet.drawn) + Counts(r, Canvas.Cursor(old(sheet.page), y0))
      + Canvas.CheckedLines(r.rows, 50, Canvas.Cursor(old(sheet.page), y0 - 50), height).0
  {
    var y := y0;
    sheet.DrawString(40, y, r.threshold);
    y := y - 20;
    sheet.DrawString(40, y, r.count);
    y := y - 30;
    if r.rows != [] {
      y := Canvas.DrawChecked(sheet, r.rows, 50, y, height);
    }
  }

  /** The report's length, its three header strings, and the threshold and
      count after the note section. */
  lemma PdfFrame(r: Report, note: string, height: int)
    ensures var pdf := TrendPdf(r, note, height);
      var k := if Text.Strip(note) == [] then 0 else 1 + |Text.SplitLines(note)|;
      && |pdf| == 5 + k + |r.rows|
      && pdf[..3] == Top(r, height)
      && pdf[3 + k].text == r.threshold && pdf[4 + k].text == r.count
  {
    var n := NotePart(note, NoteStart(height), height);
    NotePartLayout(note, NoteStart(height), height);
    Seqs.FourParts(Top(r, height), n.0, Counts(r, n.1),
      Canvas.CheckedLines(r.rows, 50, Canvas.Cursor(n.1.page, n.1.y - 50), height).0);
  }

  /** The heading and the note's lines follow the header, in order, at
      x = 50. */
  lemma PdfNoteLines(r: Report, note: string, height: int)
    requires Text.Strip(note) != []
    ensures var pdf := TrendPdf(r, note, height);
      && |pdf| >= 4 + |Text.SplitLines(note)|
      && pdf[3].text == NoteHeading
      && forall j :: 0 <= j < |Text.SplitLines(note)| ==>
           pdf[4 + j].text == Text.SplitLines(note)[j] && pdf[4 + j].x == 50
  {
    var c, lines := NoteStart(height), Text.SplitLines(note);
    var l := Canvas.CheckedLines(lines, 50, Canvas.Cursor(c.page, c.y - 20), height);
    var n := NotePart(note, c, height);
    var rest := Counts(r, n.1) + Canvas.CheckedLines(r.rows, 50, Canvas.Cursor(n.1.page, n.1.y - 50), height).0;
    Canvas.CheckedLinesInOrder(lines, 50, Canvas.Cursor(c.page, c.y - 20), height);
    assert n.0 == [Canvas.Drawn(c.page, 40, c.y, NoteHeading)] + l.0;
    Seqs.AppendAssoc(Top(r, height) + n.0, Counts(r, n.1),
      Canvas.CheckedLines(r.rows, 50, Canvas.Cursor(n.1.page, n.1.y - 50), height).0);
    LinesAfterHeading(Top(r, height), Canvas.Drawn(c.page, 40, c.y, NoteHeading), l.0, rest, lines);
  }

  /** In `top + ([heading] + body) + rest` with three `top` strings, the
      heading comes fourth and the body's lines follow it. */
  lemma LinesAfterHeading(top: seq<Canvas.Drawn>, heading: Canvas.Drawn, body: seq<Canvas.Drawn>,
                          rest: seq<Canvas.Drawn>, lines: seq<string>)
    requires |top| == 3 && |body| == |lines|
    requires forall j :: 0 <= j < |lines| ==> body[j].text == lines[j] && body[j].x == 50
    ensures var s := top + ([heading] + body) + rest;
      && |s| >= 4 + |lines|
      && s[3] == heading
      && forall j :: 0 <= j < |lines| ==> s[4 + j].text == lines[j] && s[4 + j].x == 50
  {
    var s := top + ([heading] + body) + rest;
    forall j | 0 <= j < |lines| ensures s[4 + j] == body[j] {
    }
  }

  /** The outlier rows come last, in order, at x = 50. */
  lemma PdfRows(r: Report, note: string, height: int)
    ensures var pdf := TrendPdf(r, note, height);
      var k := if Text.Strip(note) == [] then 0 else 1 + |Text.SplitLines(note)|;
      && |pdf| >= 5 + k + |r.rows|
      && forall i :: 0 <= i < |r.rows| ==> pdf[5 + k + i].text == r.rows[i] && pdf[5 + k + i].x == 50
  {
    var n := NotePart(note, NoteStart(height), height);
    var c := Canvas.Cursor(n.1.page, n.1.y - 50);
    NotePartLayout(note, NoteStart(height), height);
    Canvas.CheckedLinesInOrder(r.rows, 50, c, height);
    RowsAtEnd(Top(r, height) + n.0 + Counts(r, n.1), Canvas.CheckedLines(r.rows, 50, c, height).0, r.rows);
  }

  /** The lines of `rows` drawn after everything in `front`. */
  lemma RowsAtEnd(front: seq<Canvas.Drawn>, drawn: seq<Canvas.Drawn>, rows: seq<string>)
    requires |drawn| == |rows|
    requires forall i :: 0 <= i < |rows| ==> drawn[i].text == rows[i] && drawn[i].x == 50
    ensures forall i :: 0 <= i < |rows| ==>
      (front + drawn)[|front| + i].text == rows[i] && (front + drawn)[|front| + i].x == 50
  {
  }

  /** The note section holds, for a non-blank note, the heading and then one
      string per line of the note, in order, at x = 50; for a blank note
      nothing. */
  lemma NotePartLayout(note: string, c: Canvas.Cursor, height: int)
    ensures var n := NotePart(note, c, height);
      var lines := Text.SplitLines(note);
      && |n.0| == (if Text.Strip(note) == [] then 0 else 1 + |lines|)
      && (Text.Strip(note) != [] ==>
            && n.0[0].text == NoteHeading
            && forall j :: 0 <= j < |lines| ==> n.0[1 + j].text == lines[j] && n.0[1 + j].x == 50)
  {
    if Text.Strip(note) != [] {
      Canvas.CheckedLinesInOrder(Text.SplitLines(note), 50, Canvas.Cursor(c.page, c.y - 20), height);
    }
  }

  /** A blank note, such as the one Clear leaves, gives no note section: the
      threshold line follows the categories line directly. */
  lemma BlankNoteOmitted(r: Report, note: string, height: int)
    requires Text.IsBlank(note)
    ensures TrendPdf(r, note, height) == Top(r, height) + Counts(r, NoteStart(height))
      + Canvas.CheckedLines(r.rows, 50, Canvas.Cursor(0, height - 170), height).0
  {
    Text.StripBlank(note);
  }

  /** Clear empties the text area and deletes the note file, so the PDF the
      page then builds has no note section. */
  method ClearThenPdf(slot: Notes.Slot<string>, typed: Option<string>, r: Report, height: int)
    returns (sheet: Canvas.Sheet)
    modifies slot
    ensures slot.stored == None
    ensures fresh(sheet)
    ensures sheet.drawn == Top(r, height) + Counts(r, NoteStart(height))
      + Canvas.CheckedLines(r.rows, 50, Canvas.Cursor(0, height - 170), height).0
  {
    var note := Notes.TextPanel(slot, typed, Notes.ClearClicked);
    BlankNoteOmitted(r, note, height);
    sheet := CreatePdf(r, note, height);
  }

  // ---------------------------------------------------------------------
  // The margin of the outlier rows
  // ---------------------------------------------------------------------

  /** As written, the threshold and count lines and the first outlier row
      come after the note loop without a page check. A 40-line note on a
      letter page leaves the loop's cursor at 52, so the threshold lands at
      42, the count at 22 and the first outlier row at y = -8, below the
      bottom edge of the page. */
  lemma FirstOutlierOffPage(r: Report, note: string)
    requires Text.Strip(note) != [] && |Text.SplitLines(note)| == 40 && r.rows != []
    ensures var pdf := TrendPdf(r, note, Canvas.LetterHeight);
      |pdf| > 46
      && pdf[44] == Canvas.Drawn(0, 40, 42, r.threshold)
      && pdf[45] == Canvas.Drawn(0, 40, 22, r.count)
      && pdf[46] == Canvas.Drawn(0, 50, -8, r.rows[0])
  {
    var h := Canvas.LetterHeight;
    var lines := Text.SplitLines(note);
    Canvas.CheckedLinesNoBreak(lines, 50, Canvas.Cursor(0, h - 140), h);
    var n := NotePart(note, NoteStart(h), h);
    assert n.1 == Canvas.Cursor(0, 42);
    Canvas.CheckedLinesInOrder(r.rows, 50, Canvas.Cursor(0, -8), h);
    NotePartLayout(note, NoteStart(h), h);
    Seqs.FourParts(Top(r, h), n.0, Counts(r, n.1), Canvas.CheckedLines(r.rows, 50, Canvas.Cursor(0, -8), h).0);
  }

  /** The cursor moved to a fresh page when it is already under the
      margin. */
  function CheckBefore(c: Canvas.Cursor, height: int): Canvas.Cursor
  {
    if c.y < 50 then Canvas.Cursor(c.page + 1, height - 40) else c
  }

  /** The report with one more check, before the outlier loop starts: the
      rows start on a fresh page when the cursor is already under 50. */
  function TrendPdfFixed(r: Report, note: string, height: int): seq<Canvas.Drawn>
  {
    var n := NotePart(note, NoteStart(height), height);
    Top(r, height) + n.0 + Counts(r, n.1)
      + Canvas.CheckedLines(r.rows, 50, CheckBefore(Canvas.Cursor(n.1.page, n.1.y - 50), height), height).0
  }

  /** After the note section the cursor is at least 40 (at least 50 when
      the loop ends, then the 10-point gap). */
  lemma NotePartEnd(note: string, height: int)
    requires height >= 170
    ensures NotePart(note, NoteStart(height), height).1.y >= 40
  {
    if Text.Strip(note) != [] {
      var c := NoteStart(height);
      var lines := Text.SplitLines(note);
      Canvas.CheckedLinesAbove(lines, 50, Canvas.Cursor(c.page, c.y - 20), height);
    }
  }

  /** The same strings, in the same order, as the report as written. */
  lemma FixedSameStrings(r: Report, note: string, height: int)
    ensures |TrendPdfFixed(r, note, height)| == |TrendPdf(r, note, height)|
    ensures forall i :: 0 <= i < |TrendPdf(r, note, height)| ==>
      TrendPdfFixed(r, note, height)[i].text == TrendPdf(r, note, height)[i].text
  {
    var n := NotePart(note, NoteStart(height), height);
    var c := Canvas.Cursor(n.1.page, n.1.y - 50);
    Canvas.CheckedLinesInOrder(r.rows, 50, c, height);
    Canvas.CheckedLinesInOrder(r.rows, 50, CheckBefore(c, height), height);
  }

  /** With the added check every outlier row is drawn at y >= 50, and on a
      page at least 190 high nothing is drawn under y = 20. */
  lemma FixedRowsOnPage(r: Report, note: string, height: int)
    requires height >= 190
    ensures var pdf := TrendPdfFixed(r, note, height);
      var k := |pdf| - |r.rows|;
      && (forall i :: k <= i < |pdf| ==> pdf[i].y >= 50)
      && (forall i :: 0 <= i < |pdf| ==> pdf[i].y >= 20)
  {
    var pdf := TrendPdfFixed(r, note, height);
    var n := NotePart(note, NoteStart(height), height);
    NotePartEnd(note, height);
    var c := CheckBefore(Canvas.Cursor(n.1.page, n.1.y - 50), height);
    var rows := Canvas.CheckedLines(r.rows, 50, c, height).0;
    Canvas.CheckedLinesAbove(r.rows, 50, c, height);
    Canvas.CheckedLinesInOrder(r.rows, 50, c, height);
    var k := |pdf| - |r.rows|;
    assert pdf == (Top(r, height) + n.0 + Counts(r, n.1)) + rows;
    forall i | k <= i < |pdf| ensures pdf[i].y >= 50 {
      assert pdf[i] == rows[i - k];
    }
    if Text.Strip(note) != [] {
      var start := NoteStart(height);
      var lines := Text.SplitLines(note);
      var l := Canvas.CheckedLines(lines, 50, Canvas.Cursor(0, height - 140), height);
      Canvas.CheckedLinesAbove(lines, 50, Canvas.Cursor(0, height - 140), height);
      Canvas.CheckedLinesInOrder(lines, 50, Canvas.Cursor(0, height - 140), height);
      assert n.0 == [Canvas.Drawn(0, 40, height - 120, NoteHeading)] + l.0;
      forall i | 4 <= i < 4 + |lines| ensures pdf[i].y >= 50 {
        assert pdf[i] == l.0[i - 4];
      }
    }
  }
}
