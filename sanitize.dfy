/** The two `clean_text_for_pdf` variants that prepare report text for a
    Latin-1 PDF font: a regular-expression character class deletes every code
    point in a fixed list of ranges, then `str.replace` rewrites the rupee sign
    (and, on the credit page, the en dash). */
module Sanitize {
  import Seqs
  import Text

  /** U+20B9 INDIAN RUPEE SIGN, written as "Rs." in the PDF. */
  const Rupee: char := '\U{20B9}'

  /** U+2013 EN DASH, written as "-" in the credit PDF. */
  const EnDash: char := '\U{2013}'

  /** The six ranges of the dashboard page's pattern. */
  predicate InDashboardRanges(c: char)
  {
    || ('\U{1F600}' <= c <= '\U{1F64F}')
    || ('\U{1F300}' <= c <= '\U{1F5FF}')
    || ('\U{1F680}' <= c <= '\U{1F6FF}')
    || ('\U{1F1E0}' <= c <= '\U{1F1FF}')
    || ('\U{2700}' <= c <= '\U{27BF}')
    || ('\U{24C2}' <= c <= '\U{1F251}')
  }

  /** The seven ranges of the credit page's pattern: the six above and the
      supplemental symbols block. */
  predicate InCreditRanges(c: char)
  {
    InDashboardRanges(c) || ('\U{1F900}' <= c <= '\U{1F9FF}')
  }

  predicate KeepCredit(c: char)
  {
    !InCreditRanges(c)
  }

  predicate KeepDashboard(c: char)
  {
    !InDashboardRanges(c)
  }

  /** Credit page: delete the seven ranges, then rupee to "Rs.", then en dash
      to "-". */
  function CleanCredit(text: string): (r: string)
    ensures forall i :: 0 <= i < |r| ==>
      !InCreditRanges(r[i]) && r[i] != Rupee && r[i] != EnDash
  {
    var kept := Seqs.Filter(text, KeepCredit);
    var rupees := Text.ReplaceChar(kept, Rupee, "Rs.");
    Text.ReplaceChar(rupees, EnDash, "-")
  }

  /** Dashboard page: delete the six ranges (the pattern's `+` deletes whole
      runs, which removes the same code points), then rupee to "Rs.". */
  function CleanDashboard(text: string): (r: string)
    ensures forall i :: 0 <= i < |r| ==> !InDashboardRanges(r[i]) && r[i] != Rupee
  {
    Text.ReplaceChar(Seqs.Filter(text, KeepDashboard), Rupee, "Rs.")
  }

  // ---------------------------------------------------------------------
  // Reference definitions: one code point at a time
  // ---------------------------------------------------------------------

  /** What the credit sanitiser makes of one code point. */
  function CreditChar(c: char): string
  {
    if InCreditRanges(c) then ""
    else if c == Rupee then "Rs."
    else if c == EnDash then "-"
    else [c]
  }

  /** What the dashboard sanitiser makes of one code point: the en dash is
      kept. */
  function DashboardChar(c: char): string
  {
    if InDashboardRanges(c) then ""
    else if c == Rupee then "Rs."
    else [c]
  }

  /** `f` applied to every code point, the results end to end. */
  function FlatMap(s: string, f: char -> string): string
    decreases |s|
  {
    if s == [] then [] else f(s[0]) + FlatMap(s[1..], f)
  }

  lemma {:induction false} FlatMapAppend(a: string, b: string, f: char -> string)
    ensures FlatMap(a + b, f) == FlatMap(a, f) + FlatMap(b, f)
    decreases |a|
  {
    if a == [] {
      assert a + b == b;
    } else {
      FlatMapAppend(a[1..], b, f);
      assert (a + b)[1..] == a[1..] + b;
    }
  }

  /** A per-character rewrite of six pieces, the fourth of which vanishes. */
  lemma FlatMapPieces(p1: string, p2: string, p3: string, p4: string, p5: string, p6: string, f: char -> string)
    requires FlatMap(p1, f) == p1 && FlatMap(p2, f) == p2 && FlatMap(p3, f) == p3
    requires FlatMap(p4, f) == [] && FlatMap(p5, f) == p5 && FlatMap(p6, f) == p6
    ensures FlatMap(p1 + p2 + p3 + p4 + p5 + p6, f) == p1 + p2 + p3 + p5 + p6
  {
    FlatMapAppend(p1, p2, f);
    FlatMapAppend(p1 + p2, p3, f);
    FlatMapAppend(p1 + p2 + p3, p4, f);
    FlatMapAppend(p1 + p2 + p3 + p4, p5, f);
    FlatMapAppend(p1 + p2 + p3 + p4 + p5, p6, f);
  }

  /** A filter that keeps every element is the identity. */
  lemma {:induction false} FilterKeepsAll(s: string, keep: char -> bool)
    requires forall i :: 0 <= i < |s| ==> keep(s[i])
    ensures Seqs.Filter(s, keep) == s
    decreases |s|
  {
    if s != [] {
      FilterKeepsAll(s[1..], keep);
    }
  }

  /** One code point through the three credit steps. */
  lemma CreditStepsOnChar(c: char)
    ensures Text.ReplaceChar(Text.ReplaceChar(if KeepCredit(c) then [c] else [], Rupee, "Rs."), EnDash, "-")
      == CreditChar(c)
  {
    if !KeepCredit(c) {
    } else if c == Rupee {
      var once := Text.ReplaceChar([c], Rupee, "Rs.");
      assert once == "Rs." + Text.ReplaceChar([], Rupee, "Rs.");
      assert once == "Rs.";
      Text.ReplaceAbsent(once, EnDash, "-");
    } else {
      assert Text.ReplaceChar([c], Rupee, "Rs.") == [c] + [];
    }
  }

  /** The credit sanitiser treats every code point on its own, in order:
      deleted in the seven ranges, rupee to "Rs.", en dash to "-", every other
      code point kept. */
  lemma {:induction false} CleanCreditPerChar(text: string)
    ensures CleanCredit(text) == FlatMap(text, CreditChar)
    decreases |text|
  {
    if text != [] {
      CleanCreditPerChar(text[1..]);
      var c := text[0];
      var h: string := if KeepCredit(c) then [c] else [];
      var tail := Seqs.Filter(text[1..], KeepCredit);
      assert Seqs.Filter(text, KeepCredit) == h + tail;
      Text.ReplaceCharAppend(h, tail, Rupee, "Rs.");
      Text.ReplaceCharAppend(Text.ReplaceChar(h, Rupee, "Rs."), Text.ReplaceChar(tail, Rupee, "Rs."), EnDash, "-");
      CreditStepsOnChar(c);
    }
  }

  /** The dashboard sanitiser treats every code point on its own, in order. */
  lemma {:induction false} CleanDashboardPerChar(text: string)
    ensures CleanDashboard(text) == FlatMap(text, DashboardChar)
    decreases |text|
  {
    if text != [] {
      CleanDashboardPerChar(text[1..]);
      var c := text[0];
      var h: string := if KeepDashboard(c) then [c] else [];
      var tail := Seqs.Filter(text[1..], KeepDashboard);
      assert Seqs.Filter(text, KeepDashboard) == h + tail;
      Text.ReplaceCharAppend(h, tail, Rupee, "Rs.");
      if h != [] {
        assert Text.ReplaceChar(h, Rupee, "Rs.") == (if c == Rupee then "Rs." else [c]) + [];
      }
    }
  }

  /** Sanitising two pieces is sanitising them end to end. */
  lemma CleanCreditAppend(a: string, b: string)
    ensures CleanCredit(a + b) == CleanCredit(a) + CleanCredit(b)
  {
    CleanCreditPerChar(a + b);
    CleanCreditPerChar(a);
    CleanCreditPerChar(b);
    FlatMapAppend(a, b, CreditChar);
  }

  lemma CleanDashboardAppend(a: string, b: string)
    ensures CleanDashboard(a + b) == CleanDashboard(a) + CleanDashboard(b)
  {
    CleanDashboardPerChar(a + b);
    CleanDashboardPerChar(a);
    CleanDashboardPerChar(b);
    FlatMapAppend(a, b, DashboardChar);
  }

  /** The dashboard sanitiser keeps the en dash where it is. */
  lemma CleanDashboardKeepsEnDash(a: string, b: string)
    ensures CleanDashboard(a + [EnDash] + b) == CleanDashboard(a) + [EnDash] + CleanDashboard(b)
  {
    CleanDashboardAppend(a + [EnDash], b);
    CleanDashboardAppend(a, [EnDash]);
    CleanDashboardPerChar([EnDash]);
    assert FlatMap([EnDash], DashboardChar) == [EnDash] + FlatMap([], DashboardChar);
  }

  /** Text that already has no listed code point, rupee or en dash comes out
      unchanged. */
  lemma CleanCreditFixesSafe(text: string)
    requires forall i :: 0 <= i < |text| ==>
      !InCreditRanges(text[i]) && text[i] != Rupee && text[i] != EnDash
    ensures CleanCredit(text) == text
  {
    FilterKeepsAll(text, KeepCredit);
    Text.ReplaceAbsent(text, Rupee, "Rs.");
    Text.ReplaceAbsent(text, EnDash, "-");
  }

  lemma CleanDashboardFixesSafe(text: string)
    requires forall i :: 0 <= i < |text| ==> !InDashboardRanges(text[i]) && text[i] != Rupee
    ensures CleanDashboard(text) == text
  {
    FilterKeepsAll(text, KeepDashboard);
    Text.ReplaceAbsent(text, Rupee, "Rs.");
  }

  /** Printable ASCII and newlines come out of the sanitiser unchanged. */
  lemma CleanCreditPlain(s: string)
    requires forall c :: c in s ==> ' ' <= c <= '~' || c == '\n'
    ensures CleanCredit(s) == s
  {
    forall i | 0 <= i < |s|
      ensures !InCreditRanges(s[i]) && s[i] != Rupee && s[i] != EnDash
    {
      assert s[i] in s;
    }
    CleanCreditFixesSafe(s);
  }

  lemma CleanDashboardPlain(s: string)
    requires forall c :: c in s ==> ' ' <= c <= '~' || c == '\n'
    ensures CleanDashboard(s) == s
  {
    forall i | 0 <= i < |s| ensures !InDashboardRanges(s[i]) && s[i] != Rupee {
      assert s[i] in s;
    }
    CleanDashboardFixesSafe(s);
  }

  /** Sanitising twice is sanitising once. */
  lemma CleanCreditIdempotent(text: string)
    ensures CleanCredit(CleanCredit(text)) == CleanCredit(text)
  {
    CleanCreditFixesSafe(CleanCredit(text));
  }

  lemma CleanDashboardIdempotent(text: string)
    ensures CleanDashboard(CleanDashboard(text)) == CleanDashboard(text)
  {
    CleanDashboardFixesSafe(CleanDashboard(text));
  }
}
