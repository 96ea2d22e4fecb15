/** The Python string operations the pages rely on, over Dafny strings
    (sequences of Unicode scalar values, as Python `str` is a sequence of
    code points): `strip()`, `split('\n')`, `splitlines()`, `", ".join`,
    `str(int)`, `int(float)` and the `:.Nf` format specifier. */
module Text {
  import Seqs

  // ---------------------------------------------------------------------
  // strip()
  // ---------------------------------------------------------------------

  /** Python's `str.isspace()` for one code point. */
  predicate IsSpace(c: char)
  {
    || ('\t' <= c <= '\r')
    || ('\U{1C}' <= c <= '\U{1F}')
    || c == ' ' || c == '\U{85}' || c == '\U{A0}' || c == '\U{1680}'
    || ('\U{2000}' <= c <= '\U{200A}')
    || c == '\U{2028}' || c == '\U{2029}' || c == '\U{202F}' || c == '\U{205F}'
    || c == '\U{3000}'
  }

  /** Every code point is whitespace (Python: `not s.strip()`). */
  ghost predicate IsBlank(s: string)
  {
    forall i :: 0 <= i < |s| ==> IsSpace(s[i])
  }

  /** `s.lstrip()`. */
  function TrimLeft(s: string): (r: string)
    ensures |r| <= |s|
    decreases |s|
  {
    if s != [] && IsSpace(s[0]) then TrimLeft(s[1..]) else s
  }

  /** `s.rstrip()`. */
  function TrimRight(s: string): (r: string)
    ensures |r| <= |s|
    decreases |s|
  {
    if s != [] && IsSpace(s[|s| - 1]) then TrimRight(s[..|s| - 1]) else s
  }

  /** `lstrip` drops exactly the leading whitespace: the result is a suffix of
      `s`, the dropped prefix is blank, and the result does not start with
      whitespace. */
  lemma {:induction false} TrimLeftSpec(s: string)
    ensures TrimLeft(s) == s[|s| - |TrimLeft(s)|..]
    ensures IsBlank(s[..|s| - |TrimLeft(s)|])
    ensures TrimLeft(s) == [] || !IsSpace(TrimLeft(s)[0])
    decreases |s|
  {
    if s != [] && IsSpace(s[0]) {
      TrimLeftSpec(s[1..]);
      var k := |s[1..]| - |TrimLeft(s[1..])|;
      assert s[1..][k..] == s[k + 1..];
      assert s[..k + 1] == [s[0]] + s[1..][..k];
    }
  }

  /** `rstrip` drops exactly the trailing whitespace. */
  lemma {:induction false} TrimRightSpec(s: string)
    ensures TrimRight(s) == s[..|TrimRight(s)|]
    ensures IsBlank(s[|TrimRight(s)|..])
    ensures TrimRight(s) == [] || !IsSpace(TrimRight(s)[|TrimRight(s)| - 1])
    decreases |s|
  {
    if s != [] && IsSpace(s[|s| - 1]) {
      var t := s[..|s| - 1];
      TrimRightSpec(t);
      var k := |TrimRight(t)|;
      assert t[..k] == s[..k];
      assert s[k..] == t[k..] + [s[|s| - 1]];
    }
  }

  /** `s.strip()`. */
  function Strip(s: string): (r: string)
    ensures |r| <= |s|
  {
    TrimRight(TrimLeft(s))
  }

  /** Stripping leaves nothing exactly when the text is all whitespace, and
      otherwise neither end of the result is whitespace. */
  lemma StripBlank(s: string)
    ensures Strip(s) == [] <==> IsBlank(s)
    ensures Strip(s) == [] || (!IsSpace(Strip(s)[0]) && !IsSpace(Strip(s)[|Strip(s)| - 1]))
  {
    var l := TrimLeft(s);
    TrimLeftSpec(s);
    TrimRightSpec(l);
    var r := TrimRight(l);
    if l == [] {
      assert s[..|s|] == s;
    } else {
      assert r != [];
      assert r[0] == l[0];
    }
  }

  /** Where `Strip(s)` starts in `s`: the length of the leading whitespace. */
  function StripStart(s: string): (k: nat)
    ensures k <= |s|
  {
    |s| - |TrimLeft(s)|
  }

  /** The text between the stripped whitespace: `Strip(s)` is a slice of `s`
      with only whitespace before and after it. */
  lemma StripIsSlice(s: string)
    ensures StripStart(s) + |Strip(s)| <= |s|
    ensures s[StripStart(s)..StripStart(s) + |Strip(s)|] == Strip(s)
    ensures IsBlank(s[..StripStart(s)])
    ensures IsBlank(s[StripStart(s) + |Strip(s)|..])
  {
    var l := TrimLeft(s);
    TrimLeftSpec(s);
    TrimRightSpec(l);
    var k := StripStart(s);
    var r := TrimRight(l);
    Seqs.SliceOfSuffix(s, k, |r|);
  }

  /** A text that neither starts nor ends with whitespace is its own strip. */
  lemma StripFixes(s: string)
    requires s == [] || (!IsSpace(s[0]) && !IsSpace(s[|s| - 1]))
    ensures Strip(s) == s
  {
    assert TrimLeft(s) == s;
    assert TrimRight(s) == s;
  }

  /** Stripping twice is stripping once. */
  lemma StripIdempotent(s: string)
    ensures Strip(Strip(s)) == Strip(s)
  {
    var r := Strip(s);
    StripBlank(s);
    if r != [] {
      assert TrimLeft(r) == r;
      assert TrimRight(r) == r;
    }
  }

  // ---------------------------------------------------------------------
  // split(sep) and its inverse sep.join
  // ---------------------------------------------------------------------

  /** `s.split(sep)` for a one-character separator: always at least one
      piece. */
  function Split(s: string, sep: char): (r: seq<string>)
    ensures |r| >= 1
    decreases |s|
  {
    if s == [] then [[]]
    else
      var rest := Split(s[1..], sep);
      if s[0] == sep then [[]] + rest else [[s[0]] + rest[0]] + rest[1..]
  }

  /** No piece of a split contains the separator. */
  lemma {:induction false} SplitPieces(s: string, sep: char)
    ensures forall i :: 0 <= i < |Split(s, sep)| ==> sep !in Split(s, sep)[i]
    decreases |s|
  {
    if s != [] {
      SplitPieces(s[1..], sep);
      var rest := Split(s[1..], sep);
      if s[0] != sep {
        var r := Split(s, sep);
        assert r == [[s[0]] + rest[0]] + rest[1..];
        forall i | 0 <= i < |r| ensures sep !in r[i] {
          if i > 0 {
            assert r[i] == rest[i];
          }
        }
      }
    }
  }

  /** `sep.join(parts)` for a one-character separator. */
  function Join(parts: seq<string>, sep: char): string
    decreases |parts|
  {
    if |parts| == 0 then []
    else if |parts| == 1 then parts[0]
    else parts[0] + [sep] + Join(parts[1..], sep)
  }

  /** Joining the pieces of a split gives back the text. */
  lemma {:induction false} JoinSplit(s: string, sep: char)
    ensures Join(Split(s, sep), sep) == s
    decreases |s|
  {
    if s != [] {
      JoinSplit(s[1..], sep);
      var rest := Split(s[1..], sep);
      if s[0] == sep {
        assert Split(s, sep) == [[]] + rest;
        assert ([[]] + rest)[1..] == rest;
        assert s == [sep] + s[1..];
      } else {
        var ps := [[s[0]] + rest[0]] + rest[1..];
        assert Split(s, sep) == ps;
        if |rest| == 1 {
          assert s == [s[0]] + s[1..];
        } else {
          assert ps[1..] == rest[1..];
          assert Join(rest, sep) == rest[0] + [sep] + Join(rest[1..], sep);
          assert s == [s[0]] + s[1..];
        }
      }
    }
  }

  /** Splitting a text made by joining separator-free pieces gives the pieces
      back: the two are inverse. */
  lemma {:induction false} SplitJoin(parts: seq<string>, sep: char)
    requires |parts| >= 1
    requires forall i :: 0 <= i < |parts| ==> sep !in parts[i]
    ensures Split(Join(parts, sep), sep) == parts
    decreases |parts|
  {
    if |parts| == 1 {
      SplitNoSeparator(parts[0], sep);
    } else {
      var others := parts[1..];
      assert forall i :: 0 <= i < |others| ==> sep !in others[i] by {
        forall i | 0 <= i < |others| ensures sep !in others[i] {
          assert others[i] == parts[i + 1];
        }
      }
      SplitJoin(others, sep);
      SplitLeadingLine(parts[0], sep, Join(others, sep));
      assert [parts[0]] + others == parts;
    }
  }

  /** The pieces of `a + sep + b` are the pieces of `a` followed by those of `b`. */
  lemma SplitAppend(a: string, sep: char, b: string)
    ensures Split(a + [sep] + b, sep) == Split(a, sep) + Split(b, sep)
  {
    var pa := Split(a, sep);
    var pb := Split(b, sep);
    JoinSplit(a, sep);
    JoinSplit(b, sep);
    JoinAppend(pa, pb, sep);
    SplitPieces(a, sep);
    SplitPieces(b, sep);
    assert forall i :: 0 <= i < |pa + pb| ==> sep !in (pa + pb)[i] by {
      forall i | 0 <= i < |pa + pb| ensures sep !in (pa + pb)[i] {
        if i >= |pa| {
          assert (pa + pb)[i] == pb[i - |pa|];
        }
      }
    }
    SplitJoin(pa + pb, sep);
  }

  /** Text between two separators adds its own pieces between those of the
      text before and the text after. */
  lemma SplitAround(a: string, mid: seq<string>, b: string, sep: char)
    requires |mid| >= 1
    requires forall i :: 0 <= i < |mid| ==> sep !in mid[i]
    ensures Split(a + [sep] + Join(mid, sep) + [sep] + b, sep) == Split(a, sep) + mid + Split(b, sep)
  {
    var m := Join(mid, sep);
    assert a + [sep] + m + [sep] + b == a + [sep] + (m + [sep] + b);
    SplitAppend(a, sep, m + [sep] + b);
    SplitAppend(m, sep, b);
    SplitJoin(mid, sep);
  }

  /** A text without the separator is a single piece. */
  lemma {:induction false} SplitNoSeparator(s: string, sep: char)
    requires sep !in s
    ensures Split(s, sep) == [s]
    decreases |s|
  {
    if s != [] {
      SplitNoSeparator(s[1..], sep);
      assert [s[0]] + s[1..] == s;
    }
  }

  /** Separator-free lines joined by the separator, with one more separator
      at the end, split back into the lines and a final empty piece. */
  lemma SplitTerminatedLines(lines: seq<string>, sep: char)
    requires |lines| >= 1
    requires forall i :: 0 <= i < |lines| ==> sep !in lines[i]
    ensures Split(Join(lines, sep) + [sep], sep) == lines + [[]]
  {
    SplitJoin(lines, sep);
    SplitAppend(Join(lines, sep), sep, []);
    assert Join(lines, sep) + [sep] + [] == Join(lines, sep) + [sep];
  }

  /** A separator-free line in front adds just itself to the pieces. */
  lemma {:induction false} SplitLeadingLine(line: string, sep: char, rest: string)
    requires sep !in line
    ensures Split(line + [sep] + rest, sep) == [line] + Split(rest, sep)
    decreases |line|
  {
    var s := line + [sep] + rest;
    if line == [] {
      assert s[1..] == rest;
    } else {
      assert s[1..] == line[1..] + [sep] + rest;
      assert line == [line[0]] + line[1..];
      SplitLeadingLine(line[1..], sep, rest);
      assert [line[0]] + line[1..] == line;
    }
  }

  /** A line followed by its newline. */
  function Ln(line: string): string
  {
    line + ['\n']
  }

  /** Lines written one after the other, each followed by a newline. */
  function LinesText(lines: seq<string>): string
    decreases |lines|
  {
    if lines == [] then [] else LinesText(lines[..|lines| - 1]) + Ln(lines[|lines| - 1])
  }

  lemma LinesTextSnoc(lines: seq<string>, line: string)
    ensures LinesText(lines + [line]) == LinesText(lines) + Ln(line)
  {
    assert (lines + [line])[..|lines|] == lines;
  }

  lemma {:induction false} LinesTextAppend(p: seq<string>, q: seq<string>)
    ensures LinesText(p + q) == LinesText(p) + LinesText(q)
    decreases |q|
  {
    if q == [] {
      assert p + q == p;
    } else {
      var init := q[..|q| - 1];
      var last := q[|q| - 1];
      assert q == init + [last];
      assert p + q == (p + init) + [last];
      LinesTextAppend(p, init);
      LinesTextSnoc(p + init, last);
      LinesTextSnoc(init, last);
    }
  }

  /** Newline-ended lines without a newline of their own, in front of more
      text, split into themselves and then the pieces of the rest. */
  lemma {:induction false} SplitLinesText(lines: seq<string>, rest: string)
    requires forall i :: 0 <= i < |lines| ==> '\n' !in lines[i]
    ensures Split(LinesText(lines) + rest, '\n') == lines + Split(rest, '\n')
    decreases |lines|
  {
    if lines == [] {
      assert LinesText(lines) + rest == rest;
    } else {
      var others := lines[1..];
      assert forall i :: 0 <= i < |others| ==> '\n' !in others[i] by {
        forall i | 0 <= i < |others| ensures '\n' !in others[i] {
          assert others[i] == lines[i + 1];
        }
      }
      SplitLinesText(others, rest);
      SplitLinesStep(lines[0], others, rest);
      assert [lines[0]] + others == lines;
    }
  }

  /** One more line in front of lines that split back into themselves. */
  lemma SplitLinesStep(first: string, others: seq<string>, rest: string)
    requires '\n' !in first
    requires Split(LinesText(others) + rest, '\n') == others + Split(rest, '\n')
    ensures Split(LinesText([first] + others) + rest, '\n') == [first] + others + Split(rest, '\n')
  {
    LinesTextCons(first, others, rest);
    SplitAfterLine(first, others, rest, LinesText(others));
  }

  /** A first line, its newline, then the other lines and the rest. */
  lemma LinesTextCons(first: string, others: seq<string>, rest: string)
    ensures LinesText([first] + others) + rest == first + ['\n'] + (LinesText(others) + rest)
  {
    LinesTextAppend([first], others);
    LinesTextOne(first);
  }

  /** A separator-free line and a newline in front of a text add the line
      to its pieces. */
  lemma SplitAfterLine(first: string, others: seq<string>, rest: string, a: string)
    requires '\n' !in first
    requires Split(a + rest, '\n') == others + Split(rest, '\n')
    ensures Split(first + ['\n'] + (a + rest), '\n') == [first] + others + Split(rest, '\n')
  {
    SplitLeadingLine(first, '\n', a + rest);
    assert [first] + (others + Split(rest, '\n')) == [first] + others + Split(rest, '\n');
  }

  lemma LinesTextOne(line: string)
    ensures LinesText([line]) == line + ['\n']
  {
    assert [line][..0] == [];
  }

  /** Joining two non-empty lists of pieces puts one separator between them. */
  lemma {:induction false} JoinAppend(p: seq<string>, q: seq<string>, sep: char)
    requires |p| >= 1 && |q| >= 1
    ensures Join(p + q, sep) == Join(p, sep) + [sep] + Join(q, sep)
    decreases |p|
  {
    if |p| == 1 {
      assert (p + q)[1..] == q;
    } else {
      JoinAppend(p[1..], q, sep);
      assert (p + q)[1..] == p[1..] + q;
    }
  }

  // ---------------------------------------------------------------------
  // replace and lower
  // ---------------------------------------------------------------------

  /** `s.replace(c, repl)` for a one-character pattern: every occurrence of `c`
      becomes `repl`. Every character of the result comes from `repl` or is a
      character of `s` other than `c`. */
  function ReplaceChar(s: string, c: char, repl: string): (r: string)
    ensures forall i :: 0 <= i < |r| ==> r[i] in repl || (r[i] in s && r[i] != c)
    decreases |s|
  {
    if s == [] then []
    else (if s[0] == c then repl else [s[0]]) + ReplaceChar(s[1..], c, repl)
  }

  lemma {:induction false} ReplaceCharAppend(a: string, b: string, c: char, repl: string)
    ensures ReplaceChar(a + b, c, repl) == ReplaceChar(a, c, repl) + ReplaceChar(b, c, repl)
    decreases |a|
  {
    if a == [] {
      assert a + b == b;
    } else {
      ReplaceCharAppend(a[1..], b, c, repl);
      var head := if a[0] == c then repl else [a[0]];
      assert (a + b)[0] == a[0] && (a + b)[1..] == a[1..] + b;
      assert ReplaceChar(a + b, c, repl) == head + ReplaceChar(a[1..] + b, c, repl);
      assert ReplaceChar(a, c, repl) == head + ReplaceChar(a[1..], c, repl);
      Seqs.AppendAssoc(head, ReplaceChar(a[1..], c, repl), ReplaceChar(b, c, repl));
    }
  }

  /** Replacing a character that does not occur changes nothing. */
  lemma {:induction false} ReplaceAbsent(s: string, c: char, repl: string)
    requires forall i :: 0 <= i < |s| ==> s[i] != c
    ensures ReplaceChar(s, c, repl) == s
    decreases |s|
  {
    if s != [] {
      ReplaceAbsent(s[1..], c, repl);
    }
  }

  /** Replacing by a single character keeps every position: the result has
      `d` where `s` has `c` and the character of `s` elsewhere. */
  lemma {:induction false} ReplaceCharByOne(s: string, c: char, d: char)
    ensures |ReplaceChar(s, c, [d])| == |s|
    ensures forall i :: 0 <= i < |s| ==> ReplaceChar(s, c, [d])[i] == if s[i] == c then d else s[i]
    decreases |s|
  {
    if s != [] {
      ReplaceCharByOne(s[1..], c, d);
      var r := ReplaceChar(s, c, [d]);
      var rest := ReplaceChar(s[1..], c, [d]);
      assert r == [if s[0] == c then d else s[0]] + rest;
      forall i | 0 < i < |s| ensures r[i] == if s[i] == c then d else s[i] {
        assert r[i] == rest[i - 1] && s[i] == s[1..][i - 1];
      }
    }
  }

  /** ASCII lower-casing of one code point. */
  function LowerChar(c: char): char
  {
    if 'A' <= c <= 'Z' then (c as int + 32) as char else c
  }

  /** `s.lower()` (ASCII letters only). */
  function Lower(s: string): (r: string)
    ensures |r| == |s|
    ensures forall i :: 0 <= i < |s| ==> r[i] == LowerChar(s[i])
  {
    seq(|s|, i requires 0 <= i < |s| => LowerChar(s[i]))
  }

  // ---------------------------------------------------------------------
  // splitlines()
  // ---------------------------------------------------------------------

  /** The line boundaries of Python's `str.splitlines()`. */
  predicate IsLineBreak(c: char)
  {
    || ('\n' <= c <= '\r')
    || ('\U{1C}' <= c <= '\U{1E}')
    || c == '\U{85}'
    || ('\U{2028}' <= c <= '\U{2029}')
  }

  /** The index of the first line boundary, or `|s|` when there is none. */
  function FirstBreak(s: string): (j: nat)
    ensures j <= |s|
    ensures j < |s| ==> IsLineBreak(s[j])
    decreases |s|
  {
    if s == [] || IsLineBreak(s[0]) then 0 else 1 + FirstBreak(s[1..])
  }

  /** No boundary comes before the first one. */
  lemma {:induction false} FirstBreakIsFirst(s: string)
    ensures forall i :: 0 <= i < FirstBreak(s) ==> !IsLineBreak(s[i])
    decreases |s|
  {
    if s != [] && !IsLineBreak(s[0]) {
      FirstBreakIsFirst(s[1..]);
      forall i | 0 < i < FirstBreak(s) ensures !IsLineBreak(s[i]) {
        assert s[i] == s[1..][i - 1];
      }
    }
  }

  /** Where the text after the boundary at `j` resumes: "\r\n" is one
      boundary, every other boundary is one code point. */
  function BreakEnd(s: string, j: nat): (n: nat)
    requires j < |s|
    ensures j < n <= |s| && n <= j + 2
  {
    if s[j] == '\r' && j + 1 < |s| && s[j + 1] == '\n' then j + 2 else j + 1
  }

  /** `s.splitlines()`: "\r\n" counts as one boundary, the empty text has no
      lines, and a boundary at the very end does not open an empty line. */
  function SplitLines(s: string): (r: seq<string>)
    ensures s == [] <==> r == []
    decreases |s|
  {
    if s == [] then []
    else
      var j := FirstBreak(s);
      if j == |s| then [s]
      else [s[..j]] + SplitLines(s[BreakEnd(s, j)..])
  }

  /** No line that splitlines returns contains a boundary. */
  lemma {:induction false} SplitLinesNoBreaks(s: string)
    ensures forall i, k :: 0 <= i < |SplitLines(s)| && 0 <= k < |SplitLines(s)[i]| ==>
      !IsLineBreak(SplitLines(s)[i][k])
    decreases |s|
  {
    if s != [] {
      var j := FirstBreak(s);
      FirstBreakIsFirst(s);
      if j < |s| {
        SplitLinesNoBreaks(s[BreakEnd(s, j)..]);
      }
    }
  }

  /** All the lines, end to end. */
  function Concat(lines: seq<string>): string
    decreases |lines|
  {
    if lines == [] then [] else lines[0] + Concat(lines[1..])
  }

  /** `s` with every line-boundary code point removed. */
  function RemoveBreaks(s: string): string
    decreases |s|
  {
    if s == [] then [] else (if IsLineBreak(s[0]) then [] else [s[0]]) + RemoveBreaks(s[1..])
  }

  lemma {:induction false} RemoveBreaksAppend(a: string, b: string)
    ensures RemoveBreaks(a + b) == RemoveBreaks(a) + RemoveBreaks(b)
    decreases |a|
  {
    if a != [] {
      RemoveBreaksAppend(a[1..], b);
      assert (a + b)[0] == a[0];
      assert (a + b)[1..] == a[1..] + b;
      var h: string := if IsLineBreak(a[0]) then [] else [a[0]];
      assert RemoveBreaks(a + b) == h + RemoveBreaks(a[1..] + b);
      assert RemoveBreaks(a) == h + RemoveBreaks(a[1..]);
    } else {
      assert a + b == b;
    }
  }

  lemma {:induction false} RemoveBreaksNone(s: string)
    requires forall i :: 0 <= i < |s| ==> !IsLineBreak(s[i])
    ensures RemoveBreaks(s) == s
    decreases |s|
  {
    if s != [] {
      RemoveBreaksNone(s[1..]);
    }
  }

  /** splitlines loses nothing but the boundaries: its lines, end to end,
      are the text without its line-boundary code points. */
  lemma {:induction false} SplitLinesKeepsText(s: string)
    ensures Concat(SplitLines(s)) == RemoveBreaks(s)
    decreases |s|
  {
    if s != [] {
      var j := FirstBreak(s);
      if j == |s| {
        FirstBreakIsFirst(s);
        RemoveBreaksNone(s);
        assert Concat([s]) == s + Concat([]);
      } else {
        var post := s[BreakEnd(s, j)..];
        var rest := SplitLines(post);
        SplitLinesKeepsText(post);
        FirstLineRemoved(s);
        assert ([s[..j]] + rest)[1..] == rest;
      }
    }
  }

  /** The text before the first boundary keeps its code points and the
      boundary itself disappears. */
  lemma FirstLineRemoved(s: string)
    requires FirstBreak(s) < |s|
    ensures RemoveBreaks(s) == s[..FirstBreak(s)] + RemoveBreaks(s[BreakEnd(s, FirstBreak(s))..])
  {
    var j := FirstBreak(s);
    var next := BreakEnd(s, j);
    FirstLineKept(s);
    BoundaryAt(s, j);
    Seqs.ThreeSlices(s, j, next);
    BreakRemoved(s, s[..j], s[j..next], s[next..]);
  }

  /** The text before the first boundary has no boundary to lose. */
  lemma FirstLineKept(s: string)
    ensures RemoveBreaks(s[..FirstBreak(s)]) == s[..FirstBreak(s)]
  {
    FirstBreakIsFirst(s);
    RemoveBreaksNone(s[..FirstBreak(s)]);
  }

  /** The boundary starting at `j` loses all its code points. */
  lemma BoundaryAt(s: string, j: nat)
    requires j < |s| && IsLineBreak(s[j])
    ensures RemoveBreaks(s[j..BreakEnd(s, j)]) == []
  {
    BoundaryRemoved(s[j..BreakEnd(s, j)]);
  }

  /** Removing the boundaries of `pre + mid + post` when `pre` keeps all its
      code points and `mid` loses all of its own. */
  lemma BreakRemoved(s: string, pre: string, mid: string, post: string)
    requires s == pre + (mid + post)
    requires RemoveBreaks(pre) == pre && RemoveBreaks(mid) == []
    ensures RemoveBreaks(s) == pre + RemoveBreaks(post)
  {
    RemoveBreaksAppend(mid, post);
    assert RemoveBreaks(mid + post) == RemoveBreaks(post);
    RemoveBreaksAppend(pre, mid + post);
  }

  /** A boundary of one or two code points leaves nothing. */
  lemma BoundaryRemoved(mid: string)
    requires 1 <= |mid| <= 2
    requires forall i :: 0 <= i < |mid| ==> IsLineBreak(mid[i])
    ensures RemoveBreaks(mid) == []
  {
    assert RemoveBreaks(mid) == RemoveBreaks(mid[1..]);
    if |mid| == 2 {
      assert RemoveBreaks(mid[1..]) == RemoveBreaks(mid[1..][1..]);
    }
  }

  /** `n` repetitions of `unit`. */
  function Repeat(unit: string, n: nat): (r: string)
    ensures |r| == n * |unit|
  {
    if n == 0 then [] else unit + Repeat(unit, n - 1)
  }

  // ---------------------------------------------------------------------
  // ", ".join
  // ---------------------------------------------------------------------

  /** `sep.join(items)` for a separator of any length. */
  function JoinWith(items: seq<string>, sep: string): string
    decreases |items|
  {
    if |items| == 0 then []
    else if |items| == 1 then items[0]
    else items[0] + sep + JoinWith(items[1..], sep)
  }

  // ---------------------------------------------------------------------
  // Numbers as text: str(int), int(float), f"{x:.Nf}"
  // ---------------------------------------------------------------------

  predicate IsDigit(c: char)
  {
    '0' <= c <= '9'
  }

  function DigitChar(d: nat): (c: char)
    requires d < 10
    ensures IsDigit(c) && c as int - '0' as int == d
  {
    (d + '0' as int) as char
  }

  /** `str(n)` for a non-negative integer: decimal digits, no leading zero. */
  function NatToString(n: nat): (r: string)
    ensures |r| >= 1
    ensures forall i :: 0 <= i < |r| ==> IsDigit(r[i])
    ensures |r| > 1 ==> r[0] != '0'
    decreases n
  {
    if n < 10 then [DigitChar(n)] else NatToString(n / 10) + [DigitChar(n % 10)]
  }

  /** The value of a string of decimal digits (Python `int(s)`). */
  function ParseNat(s: string): nat
    requires forall i :: 0 <= i < |s| ==> IsDigit(s[i])
    decreases |s|
  {
    if s == [] then 0
    else
      assert IsDigit(s[|s| - 1]);
      ParseNat(s[..|s| - 1]) * 10 + (s[|s| - 1] as int - '0' as int)
  }

  /** Printing a number and reading it back gives the number. */
  lemma {:induction false} ParseNatToString(n: nat)
    ensures ParseNat(NatToString(n)) == n
    decreases n
  {
    if n >= 10 {
      ParseNatToString(n / 10);
      var s := NatToString(n);
      assert s[..|s| - 1] == NatToString(n / 10);
    }
  }

  /** `str(i)` for any integer. */
  function IntToString(i: int): (r: string)
    ensures |r| >= 1
    ensures i < 0 <==> r[0] == '-'
  {
    if i < 0 then "-" + NatToString(-i) else NatToString(i)
  }

  function Abs(x: real): (r: real)
    ensures r >= 0.0 && (r == x || r == -x)
  {
    if x < 0.0 then -x else x
  }

  /** Python `int(x)` of a float: truncation toward zero. */
  function Truncate(x: real): (r: int)
    ensures Abs(r as real) <= Abs(x) < Abs(r as real) + 1.0
    ensures (r > 0 ==> x > 0.0) && (r < 0 ==> x < 0.0)
  {
    if x >= 0.0 then x.Floor else -((-x).Floor)
  }

  function Pow10(d: nat): (p: nat)
    ensures p >= 1
  {
    if d == 0 then 1 else 10 * Pow10(d - 1)
  }

  /** The nearest integer to a non-negative value; a tie goes to the even
      neighbour, as Python's formatting rounds. */
  function RoundHalfEven(x: real): (n: nat)
    requires x >= 0.0
    ensures -0.5 <= n as real - x <= 0.5
    ensures n as real - x == 0.5 || x - n as real == 0.5 ==> n % 2 == 0
  {
    var f := x.Floor;
    var frac := x - f as real;
    if frac < 0.5 then f
    else if frac > 0.5 then f + 1
    else if f % 2 == 0 then f
    else f + 1
  }

  /** `x` shifted `digits` decimal places to the left. */
  function Scale(x: real, digits: nat): (r: real)
    requires x >= 0.0
    ensures r >= 0.0
  {
    var p := Pow10(digits) as real;
    assert p >= 1.0;
    x * p
  }

  /** `s` left-padded with zeros to at least `width` characters. */
  function ZeroPad(s: string, width: nat): (r: string)
    ensures |r| == if |s| < width then width else |s|
    ensures r[|r| - |s|..] == s
  {
    if |s| < width then seq(width - |s|, _ => '0') + s else s
  }

  /** The digits of `|x|` rounded to `digits` decimal places, padded with
      zeros so that at least one digit precedes the decimal point. */
  function RoundedDigits(x: real, digits: nat): (s: string)
    ensures |s| >= digits + 1
    ensures forall i :: 0 <= i < |s| ==> IsDigit(s[i])
  {
    var n := NatToString(RoundHalfEven(Scale(Abs(x), digits)));
    ZeroPadDigits(n, digits + 1);
    ZeroPad(n, digits + 1)
  }

  /** A decimal point inserted before the last `digits` characters of `s`,
      none for `digits == 0`. */
  function PointAt(s: string, digits: nat): string
    requires |s| >= digits + 1
  {
    if digits == 0 then s else s[..|s| - digits] + "." + s[|s| - digits..]
  }

  /** `f"{x:.{digits}f}"`: an optional minus sign, the integer part, and for
      `digits > 0` a point followed by exactly `digits` digits. */
  function Fixed(x: real, digits: nat): (r: string)
  {
    var sign := if x < 0.0 then "-" else "";
    sign + PointAt(RoundedDigits(x, digits), digits)
  }

  /** Only digits, points and minus signs. */
  ghost predicate NumberText(t: string)
  {
    forall i :: 0 <= i < |t| ==> IsDigit(t[i]) || t[i] == '.' || t[i] == '-'
  }

  lemma NumberTextAppend(a: string, b: string)
    requires NumberText(a) && NumberText(b)
    ensures NumberText(a + b)
  {
    forall i | 0 <= i < |a + b|
      ensures IsDigit((a + b)[i]) || (a + b)[i] == '.' || (a + b)[i] == '-'
    {
      if i >= |a| {
        assert (a + b)[i] == b[i - |a|];
      }
    }
  }

  /** Padding a string of digits with zeros leaves a string of digits. */
  lemma ZeroPadDigits(s: string, width: nat)
    requires forall i :: 0 <= i < |s| ==> IsDigit(s[i])
    ensures forall i :: 0 <= i < |ZeroPad(s, width)| ==> IsDigit(ZeroPad(s, width)[i])
  {
    if |s| < width {
      var z := seq(width - |s|, _ => '0');
      forall i | 0 <= i < |z + s| ensures IsDigit((z + s)[i]) {
        if i >= |z| {
          assert (z + s)[i] == s[i - |z|];
        }
      }
    }
  }

  /** Inserting the point into digits leaves exactly `digits` digits after it. */
  lemma PointAtShape(s: string, digits: nat)
    requires |s| >= digits + 1 && digits > 0
    requires forall i :: 0 <= i < |s| ==> IsDigit(s[i])
    ensures var r := PointAt(s, digits);
      |r| > digits + 1 && r[|r| - digits - 1] == '.'
      && forall i :: |r| - digits <= i < |r| ==> IsDigit(r[i])
  {
    var r := PointAt(s, digits);
    forall i | |r| - digits <= i < |r| ensures IsDigit(r[i]) {
      assert r[i] == s[i - 1];
    }
  }

  /** For `digits > 0` the text ends in a point followed by exactly `digits`
      decimal digits, with at least one character before the point. */
  lemma FixedShape(x: real, digits: nat)
    requires digits > 0
    ensures var r := Fixed(x, digits);
      |r| > digits + 1 && r[|r| - digits - 1] == '.'
      && forall i :: |r| - digits <= i < |r| ==> IsDigit(r[i])
  {
    var sign, s := if x < 0.0 then "-" else "", RoundedDigits(x, digits);
    FixedIsSigned(x, digits);
    SignedPointShape(sign, s, digits);
  }

  /** `Fixed` is a sign in front of the rounded digits with the point
      inserted. */
  lemma FixedIsSigned(x: real, digits: nat)
    ensures Fixed(x, digits) == (if x < 0.0 then "-" else "") + PointAt(RoundedDigits(x, digits), digits)
  {
  }

  /** A sign in front of digits with the point inserted keeps the point and
      the `digits` digits after it at the end. */
  lemma SignedPointShape(sign: string, s: string, digits: nat)
    requires |s| >= digits + 1 && digits > 0
    requires forall i :: 0 <= i < |s| ==> IsDigit(s[i])
    ensures var r := sign + PointAt(s, digits);
      |r| > digits + 1 && r[|r| - digits - 1] == '.'
      && forall i :: |r| - digits <= i < |r| ==> IsDigit(r[i])
  {
    var p := PointAt(s, digits);
    PointAtShape(s, digits);
    var r := sign + p;
    forall i | |r| - digits <= i < |r| ensures IsDigit(r[i]) {
      assert r[i] == p[i - |sign|];
    }
  }

  /** The point inserted into digits gives number text. */
  lemma PointAtChars(s: string, digits: nat)
    requires |s| >= digits + 1
    requires forall i :: 0 <= i < |s| ==> IsDigit(s[i])
    ensures NumberText(PointAt(s, digits))
  {
    if digits > 0 {
      var a := s[..|s| - digits];
      var b := s[|s| - digits..];
      assert NumberText(a);
      assert NumberText(b);
      NumberTextAppend(a, ".");
      NumberTextAppend(a + ".", b);
    }
  }

  /** The text of `Fixed` uses only digits, a point and a minus sign; in
      particular it holds no line separator. */
  lemma FixedChars(x: real, digits: nat)
    ensures NumberText(Fixed(x, digits))
  {
    var sign := if x < 0.0 then "-" else "";
    PointAtChars(RoundedDigits(x, digits), digits);
    assert NumberText(sign);
    NumberTextAppend(sign, PointAt(RoundedDigits(x, digits), digits));
  }

  /** A character that is no digit, point or minus sign never appears in
      `f"{x:.{digits}f}"`. */
  lemma FixedAvoids(x: real, digits: nat, c: char)
    requires !IsDigit(c) && c != '.' && c != '-'
    ensures c !in Fixed(x, digits)
  {
    FixedChars(x, digits);
    var t := Fixed(x, digits);
    assert forall i :: 0 <= i < |t| ==> t[i] != c;
  }

  // ---------------------------------------------------------------------
  // f"{x:,.0f}" and str(round(x, 2))
  // ---------------------------------------------------------------------

  /** A comma before every group of three digits, counted from the right. */
  function Thousands(digits: string): (r: string)
    ensures |digits| <= 3 ==> r == digits
    decreases |digits|
  {
    if |digits| <= 3 then digits
    else Thousands(digits[..|digits| - 3]) + "," + digits[|digits| - 3..]
  }

  /** Deleting a character removes it from between two pieces. */
  lemma ReplaceAround(a: string, c: char, b: string)
    ensures ReplaceChar(a + [c] + b, c, "") == ReplaceChar(a, c, "") + ReplaceChar(b, c, "")
  {
    var ac := a + [c];
    ReplaceCharAppend(a, [c], c, "");
    assert ReplaceChar([c], c, "") == "" + ReplaceChar([], c, "");
    assert ReplaceChar(ac, c, "") == ReplaceChar(a, c, "");
    ReplaceCharAppend(ac, b, c, "");
  }

  /** Deleting the commas gives the digits back. */
  lemma {:induction false} ThousandsRemoveCommas(digits: string)
    requires forall i :: 0 <= i < |digits| ==> IsDigit(digits[i])
    ensures ReplaceChar(Thousands(digits), ',', "") == digits
    decreases |digits|
  {
    if |digits| <= 3 {
      ReplaceAbsent(digits, ',', "");
    } else {
      var k := |digits| - 3;
      var head, tail := digits[..k], digits[k..];
      assert forall i :: 0 <= i < |head| ==> IsDigit(head[i]);
      assert forall i :: 0 <= i < |tail| ==> tail[i] != ',' by {
        forall i | 0 <= i < |tail| ensures tail[i] != ',' {
          assert tail[i] == digits[k + i];
        }
      }
      calc {
        ReplaceChar(Thousands(digits), ',', "");
        { ThousandsStep(digits); }
        ReplaceChar(Thousands(head) + [','] + tail, ',', "");
        { ReplaceAround(Thousands(head), ',', tail); }
        ReplaceChar(Thousands(head), ',', "") + ReplaceChar(tail, ',', "");
        { ThousandsRemoveCommas(head); ReplaceAbsent(tail, ',', ""); }
        head + tail;
        { assert head + tail == digits; }
        digits;
      }
    }
  }

  /** Past three digits the last group follows a comma. */
  lemma ThousandsStep(digits: string)
    requires |digits| > 3
    ensures Thousands(digits) == Thousands(digits[..|digits| - 3]) + [','] + digits[|digits| - 3..]
  {
  }

  /** With a comma-free sign in front, deleting the commas of the grouped
      digits gives the sign and the digits. */
  lemma SignedThousandsPlain(sign: string, digits: string)
    requires forall i :: 0 <= i < |digits| ==> IsDigit(digits[i])
    requires forall i :: 0 <= i < |sign| ==> sign[i] != ','
    ensures ReplaceChar(sign + Thousands(digits), ',', "") == sign + digits
  {
    ThousandsRemoveCommas(digits);
    ReplaceCharAppend(sign, Thousands(digits), ',', "");
    ReplaceAbsent(sign, ',', "");
  }

  /** `f"{x:,.0f}"`: the whole number nearest to `x`, digits grouped in
      threes. */
  function WholeWithCommas(x: real): string
  {
    (if x < 0.0 then "-" else "") + Thousands(RoundedDigits(x, 0))
  }

  /** Without its commas the grouped form is `f"{x:.0f}"`. */
  lemma WholeWithCommasPlain(x: real)
    ensures ReplaceChar(WholeWithCommas(x), ',', "") == Fixed(x, 0)
  {
    var sign := if x < 0.0 then "-" else "";
    var digits := RoundedDigits(x, 0);
    SignedThousandsPlain(sign, digits);
    assert PointAt(digits, 0) == digits;
  }

  /** Trailing zeros dropped, but never the digit right after a point. */
  function TrimZeros(s: string): (r: string)
    ensures |r| <= |s| && r == s[..|r|]
    ensures forall i :: |r| <= i < |s| ==> s[i] == '0'
    ensures |r| < 2 || r[|r| - 1] != '0' || r[|r| - 2] == '.'
    ensures |r| < |s| ==> 0 < |r| && r[|r| - 1] != '.'
    decreases |s|
  {
    if |s| >= 2 && s[|s| - 1] == '0' && s[|s| - 2] != '.' then TrimZeros(s[..|s| - 1]) else s
  }

  /** The four clauses of `TrimZeros` admit one result only: any prefix that
      drops only zeros, ends neither in a removable 0 nor in a bare point
      when shortened, is the trimmed string (so "10.00" gives "10.0"). */
  lemma {:induction false} TrimZerosUnique(s: string, r: string)
    requires |r| <= |s| && r == s[..|r|]
    requires forall i :: |r| <= i < |s| ==> s[i] == '0'
    requires |r| < 2 || r[|r| - 1] != '0' || r[|r| - 2] == '.'
    requires |r| < |s| ==> 0 < |r| && r[|r| - 1] != '.'
    ensures r == TrimZeros(s)
    decreases |s|
  {
    if |r| < |s| {
      var t := s[..|s| - 1];
      assert s[|s| - 2] != '.' by {
        if |r| == |s| - 1 {
          assert r[|r| - 1] == s[|s| - 2];
        } else {
          assert s[|s| - 2] == '0';
        }
      }
      assert r == t[..|r|];
      TrimZerosUnique(t, r);
    } else {
      assert r == s;
    }
  }

  /** `str(round(x, 2))`: Python prints the shortest digits of the rounded
      value, with at least one digit after the point. */
  function RoundedRepr(x: real): string
  {
    TrimZeros(Fixed(x, 2))
  }
}
