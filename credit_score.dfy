/** The credit-score page: the story told about one credit profile, the text
    of its PDF report with the optional advisor note, and the note panel. */
module CreditScore {
  import opened Wrappers
  import Text
  import Sanitize
  import Notes
  import Banners

  /** A cell of the credit CSV: the number it holds and the text Python's
      `str` prints for it. */
  datatype Cell = Cell(value: real, shown: string)

  /** The columns of one row of the credit CSV that the story reads. */
  datatype Profile = Profile(
    totalCreditLimit: real,
    availableCredit: real,
    loanBalance: Cell,
    monthlyLoanPayment: Cell,
    missedPayments: Cell,
    creditAgeMonths: Cell,
    creditTypes: Cell,
    newInquiries: Cell,
    onTimePercent: Cell)

  /** No printed cell contains a line separator (a number never does). */
  predicate PrintsOnOneLine(p: Profile)
  {
    && '\n' !in p.loanBalance.shown
    && '\n' !in p.monthlyLoanPayment.shown
    && '\n' !in p.missedPayments.shown
    && '\n' !in p.creditAgeMonths.shown
    && '\n' !in p.creditTypes.shown
    && '\n' !in p.newInquiries.shown
    && '\n' !in p.onTimePercent.shown
  }

  /** The share of the credit limit in use, in percent. */
  function Utilization(p: Profile): (u: real)
    requires p.totalCreditLimit != 0.0
    ensures u * p.totalCreditLimit == (p.totalCreditLimit - p.availableCredit) * 100.0
  {
    (p.totalCreditLimit - p.availableCredit) / p.totalCreditLimit * 100.0
  }

  /** With a positive limit, utilisation above 30 means that more than 30 per
      cent of the limit is in use. */
  lemma HighUtilizationMeansUsed(p: Profile)
    requires p.totalCreditLimit > 0.0
    ensures Utilization(p) > 30.0 <==> (p.totalCreditLimit - p.availableCredit) * 100.0 > 30.0 * p.totalCreditLimit
  {
    var u := Utilization(p);
    assert (u - 30.0) * p.totalCreditLimit
      == (p.totalCreditLimit - p.availableCredit) * 100.0 - 30.0 * p.totalCreditLimit;
  }

  // ---------------------------------------------------------------------
  // The lines of the story
  // ---------------------------------------------------------------------

  // Long texts are written in pieces of at most 30 characters.
  const Siren: char := '\U{1F6A8}'
  const Target: char := '\U{1F3AF}'

  const Heading: string := "### \U{1F50D} Credit Summary"
  const HighUtilization: string := [Banners.WarningSign, Banners.Vs16] + " High credit utilization." + " Try to keep it below 30%."
  const GoodUtilization: string := [Banners.CheckMark] + " Good credit utilization."
  const MissedPrefix: string := [Siren] + " Missed Payments: "
  const NoMissedPayments: string := [Banners.CheckMark] + " No missed payments."
  const ShortHistory: string := [Banners.WarningSign, Banners.Vs16] + " Short credit history."
  const HealthyAge: string := [Banners.CheckMark] + " Healthy credit age."
  const TooManyInquiries: string := [Banners.WarningSign, Banners.Vs16] + " Too many inquiries." + " Space out new applications."
  const ImproveOnTime: string := [Banners.WarningSign, Banners.Vs16] + " Improve on-time payments."
  const GreatOnTime: string := [Target] + " Great on-time record!"

  /** The printed utilisation line. */
  function UtilizationLine(u: real): string
  {
    "\U{1F4CA} Credit Utilization: " + Text.Fixed(u, 2) + "%  "
  }

  /** A line that prints one cell between fixed text. */
  function CellLine(before: string, c: Cell, after: string): string
  {
    before + c.shown + after
  }

  const LoanLabel: string := "\U{1F4B3} Loan Balance: " + [Sanitize.Rupee]
  const PaymentLabel: string := "\U{1F4C6} Monthly Payment: " + [Sanitize.Rupee]
  const AgeLabel: string := "\U{1F4C8} Credit Age: "
  const TypesLabel: string := "\U{1F4C1} Credit Types: "
  const InquiriesLabel: string := "\U{1F50D} New Credit Inquiries" + " (6 months): "
  const OnTimeLabel: string := "\U{2705} On-Time Payment %: "

  /** The 18 lines of the story, in order. */
  function StoryLines(p: Profile): (lines: seq<string>)
    requires p.totalCreditLimit != 0.0
    ensures |lines| == 18
  {
    var u := Utilization(p);
    StoryOf(p, u, UtilizationLine(u))
  }

  /** The 18 lines of the story for a utilisation of `u` per cent printed as
      the line `shown`. */
  function StoryOf(p: Profile, u: real, shown: string): (lines: seq<string>)
    ensures |lines| == 18
  {
    [ Heading,
      "",
      shown,
      if u > 30.0 then HighUtilization else GoodUtilization,
      "",
      CellLine(LoanLabel, p.loanBalance, "  "),
      CellLine(PaymentLabel, p.monthlyLoanPayment, "  "),
      if p.missedPayments.value > 0.0 then MissedPrefix + p.missedPayments.shown else NoMissedPayments,
      "",
      CellLine(AgeLabel, p.creditAgeMonths, " months  "),
      if p.creditAgeMonths.value < 24.0 then ShortHistory else HealthyAge,
      "",
      CellLine(TypesLabel, p.creditTypes, "  "),
      CellLine(InquiriesLabel, p.newInquiries, "  "),
      if p.newInquiries.value > 2.0 then TooManyInquiries else "",
      "",
      CellLine(OnTimeLabel, p.onTimePercent, "%  "),
      if p.onTimePercent.value < 85.0 then ImproveOnTime else GreatOnTime ]
  }

  /** `credit_score_insights(row)`: the lines joined by newlines, with a
      newline after the last. */
  function Story(p: Profile): string
    requires p.totalCreditLimit != 0.0
  {
    Text.Join(StoryLines(p), '\n') + "\n"
  }

  /** A cell line holds a newline only if its cell does. */
  lemma CellLineOneLine(before: string, c: Cell, after: string)
    requires '\n' !in before && '\n' !in c.shown && '\n' !in after
    ensures '\n' !in CellLine(before, c, after)
  {
  }

  /** None of the fixed texts holds a newline. */
  lemma VerdictsOneLine()
    ensures '\n' !in HighUtilization && '\n' !in GoodUtilization
  {
  }

  lemma MissedVerdictsOneLine()
    ensures '\n' !in MissedPrefix && '\n' !in NoMissedPayments
  {
  }

  lemma MoreVerdictsOneLine()
    ensures '\n' !in ShortHistory && '\n' !in HealthyAge && '\n' !in TooManyInquiries
  {
  }

  lemma OnTimeVerdictsOneLine()
    ensures '\n' !in ImproveOnTime && '\n' !in GreatOnTime && '\n' !in Heading
  {
  }

  lemma LabelsOneLine()
    ensures '\n' !in LoanLabel && '\n' !in PaymentLabel && '\n' !in AgeLabel
  {
  }

  lemma MoreLabelsOneLine()
    ensures '\n' !in TypesLabel && '\n' !in InquiriesLabel && '\n' !in OnTimeLabel
  {
  }

  /** The utilisation line holds no newline. */
  lemma UtilizationLineOneLine(u: real)
    ensures '\n' !in UtilizationLine(u)
  {
    Text.FixedAvoids(u, 2, '\n');
  }

  /** No line of the story holds a newline. */
  lemma StoryLinesOneLine(p: Profile)
    requires p.totalCreditLimit != 0.0
    requires PrintsOnOneLine(p)
    ensures forall i :: 0 <= i < |StoryLines(p)| ==> '\n' !in StoryLines(p)[i]
  {
    var u := Utilization(p);
    UtilizationLineOneLine(u);
    StoryOfOneLine(p, u, UtilizationLine(u));
  }

  lemma StoryOfOneLine(p: Profile, u: real, shown: string)
    requires PrintsOnOneLine(p) && '\n' !in shown
    ensures forall i :: 0 <= i < |StoryOf(p, u, shown)| ==> '\n' !in StoryOf(p, u, shown)[i]
  {
    VerdictsOneLine();
    MissedVerdictsOneLine();
    MoreVerdictsOneLine();
    OnTimeVerdictsOneLine();
    LabelsOneLine();
    MoreLabelsOneLine();
    CellLineOneLine(LoanLabel, p.loanBalance, "  ");
    CellLineOneLine(PaymentLabel, p.monthlyLoanPayment, "  ");
    CellLineOneLine(AgeLabel, p.creditAgeMonths, " months  ");
    CellLineOneLine(TypesLabel, p.creditTypes, "  ");
    CellLineOneLine(InquiriesLabel, p.newInquiries, "  ");
    CellLineOneLine(OnTimeLabel, p.onTimePercent, "%  ");
    assert '\n' !in MissedPrefix + p.missedPayments.shown;
  }

  /** Splitting the story on newlines gives back its 18 lines, in order,
      and the empty piece after the final newline. */
  lemma StoryLinesInOrder(p: Profile)
    requires p.totalCreditLimit != 0.0
    requires PrintsOnOneLine(p)
    ensures Text.Split(Story(p), '\n') == StoryLines(p) + [""]
  {
    StoryLinesOneLine(p);
    Text.SplitTerminatedLines(StoryLines(p), '\n');
  }

  /** Utilisation verdict: the warning exactly when utilisation exceeds 30,
      the all-clear line otherwise. */
  lemma UtilizationVerdict(p: Profile)
    requires p.totalCreditLimit != 0.0
    ensures StoryLines(p)[3] == HighUtilization <==> Utilization(p) > 30.0
    ensures StoryLines(p)[3] == GoodUtilization <==> Utilization(p) <= 30.0
  {
    VerdictTextsDiffer();
    var u := Utilization(p);
    StoryOfVerdicts(p, u, UtilizationLine(u));
  }

  /** Missed payments: the flag with the printed count exactly when the count
      is positive, "No missed payments." otherwise. */
  lemma MissedPaymentsVerdict(p: Profile)
    requires p.totalCreditLimit != 0.0
    ensures StoryLines(p)[7] == MissedPrefix + p.missedPayments.shown <==> p.missedPayments.value > 0.0
    ensures StoryLines(p)[7] == NoMissedPayments <==> p.missedPayments.value <= 0.0
  {
    VerdictTextsDiffer();
    var u := Utilization(p);
    StoryOfVerdicts(p, u, UtilizationLine(u));
    assert (MissedPrefix + p.missedPayments.shown)[0] == Siren;
  }

  /** Credit age: "Short credit history." exactly below 24 months. */
  lemma CreditAgeVerdict(p: Profile)
    requires p.totalCreditLimit != 0.0
    ensures StoryLines(p)[10] == ShortHistory <==> p.creditAgeMonths.value < 24.0
    ensures StoryLines(p)[10] == HealthyAge <==> p.creditAgeMonths.value >= 24.0
  {
    VerdictTextsDiffer();
    var u := Utilization(p);
    StoryOfVerdicts(p, u, UtilizationLine(u));
  }

  /** Inquiries: the warning exactly above 2, an empty line otherwise. */
  lemma InquiriesVerdict(p: Profile)
    requires p.totalCreditLimit != 0.0
    ensures StoryLines(p)[14] == TooManyInquiries <==> p.newInquiries.value > 2.0
    ensures StoryLines(p)[14] == "" <==> p.newInquiries.value <= 2.0
  {
    VerdictTextsDiffer();
    var u := Utilization(p);
    StoryOfVerdicts(p, u, UtilizationLine(u));
  }

  /** On-time payments: the warning exactly below 85 per cent. */
  lemma OnTimeVerdict(p: Profile)
    requires p.totalCreditLimit != 0.0
    ensures StoryLines(p)[17] == ImproveOnTime <==> p.onTimePercent.value < 85.0
    ensures StoryLines(p)[17] == GreatOnTime <==> p.onTimePercent.value >= 85.0
  {
    VerdictTextsDiffer();
    var u := Utilization(p);
    StoryOfVerdicts(p, u, UtilizationLine(u));
  }

  /** The five verdict lines of the story. */
  lemma StoryOfVerdicts(p: Profile, u: real, shown: string)
    ensures StoryOf(p, u, shown)[3] == if u > 30.0 then HighUtilization else GoodUtilization
    ensures StoryOf(p, u, shown)[7] == if p.missedPayments.value > 0.0 then MissedPrefix + p.missedPayments.shown else NoMissedPayments
    ensures StoryOf(p, u, shown)[10] == if p.creditAgeMonths.value < 24.0 then ShortHistory else HealthyAge
    ensures StoryOf(p, u, shown)[14] == if p.newInquiries.value > 2.0 then TooManyInquiries else ""
    ensures StoryOf(p, u, shown)[17] == if p.onTimePercent.value < 85.0 then ImproveOnTime else GreatOnTime
  {
  }

  /** Each verdict differs from its alternative. */
  lemma VerdictTextsDiffer()
    ensures HighUtilization != GoodUtilization
    ensures NoMissedPayments[0] != Siren
    ensures ShortHistory != HealthyAge
    ensures TooManyInquiries != ""
    ensures ImproveOnTime != GreatOnTime
  {
    assert |HighUtilization| != |GoodUtilization|;
    assert NoMissedPayments[0] == Banners.CheckMark;
    assert |ShortHistory| != |HealthyAge|;
    assert |TooManyInquiries| != 0;
    assert |ImproveOnTime| != |GreatOnTime|;
  }

  // ---------------------------------------------------------------------
  // generate_pdf_report
  // ---------------------------------------------------------------------

  /** What `generate_pdf_report` puts between the story and the note: two
      newlines, the rule, two newlines, the pushpin and the heading, and a
      newline. */
  const NoteSeparator: string := ['\n', '\n'] + Notes.Rule + ['\n', '\n'] + [Notes.Pushpin] + Notes.NotesHeading + ['\n']

  /** The lines the separator becomes in the PDF, once sanitised. */
  const SeparatorLines: seq<string> := ["", Notes.Rule, "", Notes.NotesHeading]

  /** The text `generate_pdf_report` sanitises: the stripped story, and the
      separator with the stripped note when that is not blank. */
  function FullText(insight: string, note: string): string
  {
    var text := Text.Strip(insight);
    var n := Text.Strip(note);
    if n != [] then text + NoteSeparator + n else text
  }

  /** The lines handed to `multi_cell`, one per `\n`-separated piece of the
      sanitised text. */
  function PdfLines(insight: string, note: string): seq<string>
  {
    Text.Split(Sanitize.CleanCredit(FullText(insight, note)), '\n')
  }

  /** `generate_pdf_report`: builds the full text, then makes one
      `multi_cell` per line of its sanitised form, in order. The loop only
      copies the lines into cells; what the cells say is stated by
      `PdfLinesLayout` and the sanitiser lemmas. */
  method GeneratePdfReport(insight: string, note: string) returns (cells: seq<string>)
    ensures cells == PdfLines(insight, note)
  {
    var fullText := Text.Strip(insight);
    if Text.Strip(note) != [] {
      fullText := fullText + NoteSeparator + Text.Strip(note);
    }
    var lines := Text.Split(Sanitize.CleanCredit(fullText), '\n');
    cells := [];
    for i := 0 to |lines|
      invariant cells == lines[..i]
    {
      cells := cells + [lines[i]];
    }
    assert lines[..|lines|] == lines;
  }

  /** The sanitiser on each piece of the separator. */
  lemma RuleClean()
    ensures Sanitize.FlatMap(Notes.Rule, Sanitize.CreditChar) == Notes.Rule
  {
    Sanitize.CleanCreditPlain(Notes.Rule);
    Sanitize.CleanCreditPerChar(Notes.Rule);
  }

  lemma NotesHeadingClean()
    ensures Sanitize.FlatMap(Notes.NotesHeading, Sanitize.CreditChar) == Notes.NotesHeading
  {
    Notes.NotesHeadingPlain();
    Sanitize.CleanCreditPlain(Notes.NotesHeading);
    Sanitize.CleanCreditPerChar(Notes.NotesHeading);
  }

  lemma NewlinesClean()
    ensures Sanitize.FlatMap(['\n', '\n'], Sanitize.CreditChar) == ['\n', '\n']
    ensures Sanitize.FlatMap(['\n'], Sanitize.CreditChar) == ['\n']
  {
    Sanitize.CleanCreditPlain(['\n', '\n']);
    Sanitize.CleanCreditPerChar(['\n', '\n']);
    Sanitize.CleanCreditPlain(['\n']);
    Sanitize.CleanCreditPerChar(['\n']);
  }

  lemma PushpinClean()
    ensures Sanitize.FlatMap([Notes.Pushpin], Sanitize.CreditChar) == []
  {
    assert Sanitize.FlatMap([Notes.Pushpin], Sanitize.CreditChar)
      == Sanitize.CreditChar(Notes.Pushpin) + Sanitize.FlatMap([], Sanitize.CreditChar);
  }

  /** The sanitised separator: the pushpin is gone. */
  lemma CleanSeparator()
    ensures Sanitize.CleanCredit(NoteSeparator) == ['\n', '\n'] + Notes.Rule + ['\n', '\n'] + Notes.NotesHeading + ['\n']
  {
    Sanitize.CleanCreditPerChar(NoteSeparator);
    RuleClean();
    NotesHeadingClean();
    NewlinesClean();
    PushpinClean();
    Sanitize.FlatMapPieces(['\n', '\n'], Notes.Rule, ['\n', '\n'], [Notes.Pushpin], Notes.NotesHeading, ['\n'], Sanitize.CreditChar);
  }

  lemma FourInFront<T>(p: seq<T>, x1: T, x2: T, x3: T, x4: T, q: seq<T>)
    ensures p + ([x1] + ([x2] + ([x3] + ([x4] + q)))) == p + [x1, x2, x3, x4] + q
  {
  }

  lemma BlockAssoc<T>(a: seq<T>, rule: seq<T>, heading: seq<T>, b: seq<T>, s: T)
    ensures a + ([s, s] + rule + [s, s] + heading + [s]) + b
      == a + [s] + ([] + [s] + (rule + [s] + ([] + [s] + (heading + [s] + b))))
  {
  }

  /** Text, a separator block and more text: the block's two lines come out
      between empty pieces, after the first text's pieces and before the
      last text's. */
  lemma SplitBlock(a: string, rule: string, heading: string, b: string, sep: char)
    requires sep !in rule && sep !in heading
    ensures Text.Split(a + ([sep, sep] + rule + [sep, sep] + heading + [sep]) + b, sep)
      == Text.Split(a, sep) + ["", rule, "", heading] + Text.Split(b, sep)
  {
    var t4 := heading + [sep] + b;
    var t3 := [] + [sep] + t4;
    var t2 := rule + [sep] + t3;
    var t1 := [] + [sep] + t2;
    BlockAssoc(a, rule, heading, b, sep);
    Text.SplitLeadingLine(heading, sep, b);
    Text.SplitLeadingLine([], sep, t4);
    Text.SplitLeadingLine(rule, sep, t3);
    Text.SplitLeadingLine([], sep, t2);
    Text.SplitAppend(a, sep, t1);
    FourInFront(Text.Split(a, sep), "", rule, "", heading, Text.Split(b, sep));
  }

  /** The sanitiser keeps the three parts of the full text apart. */
  lemma CleanFullText(a: string, n: string)
    ensures Sanitize.CleanCredit(a + NoteSeparator + n)
      == Sanitize.CleanCredit(a) + (['\n', '\n'] + Notes.Rule + ['\n', '\n'] + Notes.NotesHeading + ['\n']) + Sanitize.CleanCredit(n)
  {
    Sanitize.CleanCreditAppend(a + NoteSeparator, n);
    Sanitize.CleanCreditAppend(a, NoteSeparator);
    CleanSeparator();
  }

  /** Without a note (after stripping) the PDF holds exactly the lines of
      the stripped story; with one, those lines, then an empty line, the
      rule, an empty line and the heading, and the note's lines last. */
  lemma PdfLinesLayout(insight: string, note: string)
    ensures Text.Strip(note) == [] ==>
      PdfLines(insight, note) == Text.Split(Sanitize.CleanCredit(Text.Strip(insight)), '\n')
    ensures Text.Strip(note) != [] ==>
      PdfLines(insight, note)
        == Text.Split(Sanitize.CleanCredit(Text.Strip(insight)), '\n')
           + SeparatorLines
           + Text.Split(Sanitize.CleanCredit(Text.Strip(note)), '\n')
  {
    var n := Text.Strip(note);
    if n != [] {
      CleanFullText(Text.Strip(insight), n);
      assert '\n' !in Notes.Rule && '\n' !in Notes.NotesHeading;
      SplitBlock(Sanitize.CleanCredit(Text.Strip(insight)), Notes.Rule, Notes.NotesHeading, Sanitize.CleanCredit(n), '\n');
    }
  }

  /** A cleared note adds nothing to the PDF. */
  lemma ClearedNoteOmitted(insight: string)
    ensures PdfLines(insight, "") == Text.Split(Sanitize.CleanCredit(Text.Strip(insight)), '\n')
  {
    PdfLinesLayout(insight, "");
    Text.StripBlank("");
  }
}
