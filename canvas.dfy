/** A ReportLab canvas reduced to the strings drawn on it, and the two
    line-by-line pagination loops the pages run over a `y` cursor that moves
    down the page: portfolio.py checks the cursor before drawing, trend.py
    checks it after stepping down. */
module Canvas {

  /** `drawString(x, y, text)` on page `page` (0 is the first page). */
  datatype Drawn = Drawn(page: nat, x: int, y: int, text: string)

  /** The page being drawn and the `y` variable of the loop. */
  datatype Cursor = Cursor(page: nat, y: int)

  /** The height of ReportLab's `letter` page size in points. */
  const LetterHeight: int := 792

  /** The vertical distance between two lines of a loop. */
  const LineStep: int := 15

  /** A canvas: what has been drawn so far and the current page. */
  class Sheet {
    var drawn: seq<Drawn>
    var page: nat

    constructor ()
      ensures drawn == [] && page == 0
    {
      drawn := [];
      page := 0;
    }

    /** `c.drawString(x, y, text)` on the current page. */
    method DrawString(x: int, y: int, text: string)
      modifies this
      ensures drawn == old(drawn) + [Drawn(page, x, y, text)]
      ensures page == old(page)
    {
      drawn := drawn + [Drawn(page, x, y, text)];
    }

    /** `c.showPage()`: later strings go to a fresh page. */
    method ShowPage()
      modifies this
      ensures page == old(page) + 1
      ensures drawn == old(drawn)
    {
      page := page + 1;
    }
  }

  // ---------------------------------------------------------------------
  // Check before drawing (portfolio.py): if y < 60, new page at height - 50
  // ---------------------------------------------------------------------

  /** Where the next line goes when the check comes before drawing. */
  function GuardStep(c: Cursor, height: int): Cursor
  {
    if c.y < 60 then Cursor(c.page + 1, height - 50) else c
  }

  /** The strings the guarded loop draws for `lines`, starting at `c`, and
      the cursor it leaves. */
  function GuardedLines(lines: seq<string>, x: int, c: Cursor, height: int): (r: (seq<Drawn>, Cursor))
    ensures |r.0| == |lines|
    decreases |lines|
  {
    if lines == [] then ([], c)
    else
      var at := GuardStep(c, height);
      var rest := GuardedLines(lines[1..], x, Cursor(at.page, at.y - LineStep), height);
      ([Drawn(at.page, x, at.y, lines[0])] + rest.0, rest.1)
  }

  /** One string per line, in order, at column `x`; no page before the
      starting one. */
  lemma {:induction false} GuardedLinesInOrder(lines: seq<string>, x: int, c: Cursor, height: int)
    ensures forall i :: 0 <= i < |lines| ==>
      GuardedLines(lines, x, c, height).0[i].text == lines[i]
      && GuardedLines(lines, x, c, height).0[i].x == x
      && GuardedLines(lines, x, c, height).0[i].page >= c.page
    ensures GuardedLines(lines, x, c, height).1.page >= c.page
    decreases |lines|
  {
    if lines != [] {
      var at := GuardStep(c, height);
      GuardedLinesInOrder(lines[1..], x, Cursor(at.page, at.y - LineStep), height);
      var r := GuardedLines(lines, x, c, height);
      var rest := GuardedLines(lines[1..], x, Cursor(at.page, at.y - LineStep), height);
      forall i | 0 < i < |lines| ensures r.0[i] == rest.0[i - 1] && lines[i] == lines[1..][i - 1] {
      }
    }
  }

  /** Every line is drawn at `y >= 60` (the new-page `y` is `height - 50`,
      at least 60 on a page at least 110 high), and once a line has been
      drawn the cursor is at least 45. Without lines nothing moves. */
  lemma {:induction false} GuardedLinesAbove(lines: seq<string>, x: int, c: Cursor, height: int)
    requires height >= 110
    ensures forall i :: 0 <= i < |lines| ==> GuardedLines(lines, x, c, height).0[i].y >= 60
    ensures lines != [] ==> GuardedLines(lines, x, c, height).1.y >= 60 - LineStep
    ensures lines == [] ==> GuardedLines(lines, x, c, height).1 == c
    decreases |lines|
  {
    if lines != [] {
      var at := GuardStep(c, height);
      GuardedLinesAbove(lines[1..], x, Cursor(at.page, at.y - LineStep), height);
      var r := GuardedLines(lines, x, c, height);
      var rest := GuardedLines(lines[1..], x, Cursor(at.page, at.y - LineStep), height);
      forall i | 0 < i < |lines| ensures r.0[i] == rest.0[i - 1] {
      }
    }
  }

  /** Line `i + 1` follows line `i` of the guarded loop: 15 points lower on
      the same page, or at `height - 50` on the next page when line `i` left
      the cursor below 60. */
  ghost predicate GuardedNext(d: seq<Drawn>, i: nat, height: int)
    requires i + 1 < |d|
  {
    if d[i].y - LineStep < 60 then d[i + 1].page == d[i].page + 1 && d[i + 1].y == height - 50
    else d[i + 1].page == d[i].page && d[i + 1].y == d[i].y - LineStep
  }

  /** Consecutive lines of the guarded loop are spaced as `GuardedNext` says. */
  lemma {:induction false} GuardedLinesSpacing(lines: seq<string>, x: int, c: Cursor, height: int)
    ensures forall i :: 0 <= i < |lines| - 1 ==> GuardedNext(GuardedLines(lines, x, c, height).0, i, height)
    decreases |lines|
  {
    if lines != [] {
      var at := GuardStep(c, height);
      var next := Cursor(at.page, at.y - LineStep);
      GuardedLinesSpacing(lines[1..], x, next, height);
      var d := GuardedLines(lines, x, c, height).0;
      var rest := GuardedLines(lines[1..], x, next, height).0;
      forall i | 0 <= i < |lines| - 1 ensures GuardedNext(d, i, height) {
        if i > 0 {
          assert d[i] == rest[i - 1] && d[i + 1] == rest[i];
          assert GuardedNext(rest, i - 1, height);
        } else {
          var second := GuardStep(next, height);
          var tail := GuardedLines(lines[1..][1..], x, Cursor(second.page, second.y - LineStep), height);
          assert rest == [Drawn(second.page, x, second.y, lines[1..][0])] + tail.0;
          assert d[0] == Drawn(at.page, x, at.y, lines[0]) && d[1] == rest[0];
        }
      }
    }
  }

  /** While the last line still starts at or above 60, no page break
      happens: `n` lines from `y` leave the cursor at `y - 15 n` on the same
      page. */
  lemma {:induction false} GuardedLinesNoBreak(lines: seq<string>, x: int, c: Cursor, height: int)
    requires lines != [] ==> c.y - LineStep * (|lines| - 1) >= 60
    ensures GuardedLines(lines, x, c, height).1 == Cursor(c.page, c.y - LineStep * |lines|)
    decreases |lines|
  {
    if lines != [] {
      GuardedLinesNoBreak(lines[1..], x, Cursor(c.page, c.y - LineStep), height);
    }
  }

  /** The guarded loop, drawing on `sheet` and moving `y`:

        for line in lines:
            if y < 60: showPage(); y = height - 50
            drawString(x, y, line); y -= 15
  */
  method DrawGuarded(sheet: Sheet, lines: seq<string>, x: int, y0: int, height: int) returns (y: int)
    modifies sheet
    ensures var r := GuardedLines(lines, x, Cursor(old(sheet.page), y0), height);
      sheet.drawn == old(sheet.drawn) + r.0 && Cursor(sheet.page, y) == r.1
  {
    y := y0;
    var i := 0;
    while i < |lines|
      invariant 0 <= i <= |lines|
      invariant var r := GuardedLines(lines, x, Cursor(old(sheet.page), y0), height);
        var t := GuardedLines(lines[i..], x, Cursor(sheet.page, y), height);
        old(sheet.drawn) + r.0 == sheet.drawn + t.0 && r.1 == t.1
    {
      ghost var before := GuardedLines(lines[i..], x, Cursor(sheet.page, y), height);
      if y < 60 {
        sheet.ShowPage();
        y := height - 50;
      }
      sheet.DrawString(x, y, lines[i]);
      y := y - LineStep;
      assert lines[i..][1..] == lines[i + 1..];
      ghost var after := GuardedLines(lines[i + 1..], x, Cursor(sheet.page, y), height);
      assert before.0 == [sheet.drawn[|sheet.drawn| - 1]] + after.0 && before.1 == after.1;
      i := i + 1;
    }
    assert lines[i..] == [];
  }

  // ---------------------------------------------------------------------
  // Check after stepping (trend.py): y -= 15, then if y < 50 new page at
  // height - 40
  // ---------------------------------------------------------------------

  /** Where the cursor goes after a line when the check follows the step. */
  function CheckStep(c: Cursor, height: int): Cursor
  {
    var y := c.y - LineStep;
    if y < 50 then Cursor(c.page + 1, height - 40) else Cursor(c.page, y)
  }

  /** The strings the checked loop draws for `lines`, starting at `c`, and
      the cursor it leaves. */
  function CheckedLines(lines: seq<string>, x: int, c: Cursor, height: int): (r: (seq<Drawn>, Cursor))
    ensures |r.0| == |lines|
    decreases |lines|
  {
    if lines == [] then ([], c)
    else
      var rest := CheckedLines(lines[1..], x, CheckStep(c, height), height);
      ([Drawn(c.page, x, c.y, lines[0])] + rest.0, rest.1)
  }

  /** One string per line, in order, at column `x`; the first one exactly at
      the starting cursor. */
  lemma {:induction false} CheckedLinesInOrder(lines: seq<string>, x: int, c: Cursor, height: int)
    ensures forall i :: 0 <= i < |lines| ==>
      CheckedLines(lines, x, c, height).0[i].text == lines[i]
      && CheckedLines(lines, x, c, height).0[i].x == x
    ensures lines != [] ==>
      CheckedLines(lines, x, c, height).0[0].page == c.page && CheckedLines(lines, x, c, height).0[0].y == c.y
    decreases |lines|
  {
    if lines != [] {
      CheckedLinesInOrder(lines[1..], x, CheckStep(c, height), height);
      var r := CheckedLines(lines, x, c, height);
      var rest := CheckedLines(lines[1..], x, CheckStep(c, height), height);
      forall i | 0 < i < |lines| ensures r.0[i] == rest.0[i - 1] && lines[i] == lines[1..][i - 1] {
      }
    }
  }

  /** After every line the cursor is at least 50 (the new-page `y` is
      `height - 40`, at least 50 on a page at least 90 high), so every line
      but the first is drawn at `y >= 50`; the first is drawn wherever the
      cursor was. */
  lemma {:induction false} CheckedLinesAbove(lines: seq<string>, x: int, c: Cursor, height: int)
    requires height >= 90
    ensures forall i :: 0 < i < |lines| ==> CheckedLines(lines, x, c, height).0[i].y >= 50
    ensures lines != [] ==> CheckedLines(lines, x, c, height).1.y >= 50
    ensures lines == [] ==> CheckedLines(lines, x, c, height).1 == c
    decreases |lines|
  {
    if lines != [] {
      var next := CheckStep(c, height);
      CheckedLinesAbove(lines[1..], x, next, height);
      CheckedLinesInOrder(lines[1..], x, next, height);
      var r := CheckedLines(lines, x, c, height);
      var rest := CheckedLines(lines[1..], x, next, height);
      forall i | 0 < i < |lines| ensures r.0[i] == rest.0[i - 1] {
      }
    }
  }

  /** While the cursor stays at or above 50 + 15 per line, no page break
      happens: `n` lines from `y` leave the cursor at `y - 15 n` on the same
      page. */
  lemma {:induction false} CheckedLinesNoBreak(lines: seq<string>, x: int, c: Cursor, height: int)
    requires c.y - LineStep * |lines| >= 50
    ensures CheckedLines(lines, x, c, height).1 == Cursor(c.page, c.y - LineStep * |lines|)
    decreases |lines|
  {
    if lines != [] {
      CheckedLinesNoBreak(lines[1..], x, CheckStep(c, height), height);
    }
  }

  /** The checked loop, drawing on `sheet` and moving `y`:

        for line in lines:
            drawString(x, y, line); y -= 15
            if y < 50: showPage(); y = height - 40
  */
  method DrawChecked(sheet: Sheet, lines: seq<string>, x: int, y0: int, height: int) returns (y: int)
    modifies sheet
    ensures var r := CheckedLines(lines, x, Cursor(old(sheet.page), y0), height);
      sheet.drawn == old(sheet.drawn) + r.0 && Cursor(sheet.page, y) == r.1
  {
    y := y0;
    var i := 0;
    while i < |lines|
      invariant 0 <= i <= |lines|
      invariant var r := CheckedLines(lines, x, Cursor(old(sheet.page), y0), height);
        var t := CheckedLines(lines[i..], x, Cursor(sheet.page, y), height);
        old(sheet.drawn) + r.0 == sheet.drawn + t.0 && r.1 == t.1
    {
      ghost var before := CheckedLines(lines[i..], x, Cursor(sheet.page, y), height);
      sheet.DrawString(x, y, lines[i]);
      y := y - LineStep;
      if y < 50 {
        sheet.ShowPage();
        y := height - 40;
      }
      assert lines[i..][1..] == lines[i + 1..];
      ghost var after := CheckedLines(lines[i + 1..], x, Cursor(sheet.page, y), height);
      assert before.0 == [sheet.drawn[|sheet.drawn| - 1]] + after.0 && before.1 == after.1;
      i := i + 1;
    }
    assert lines[i..] == [];
  }
}
