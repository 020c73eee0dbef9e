/** The per-line transform of src/reformatCode.py, which aligns end-of-line
    comments of C-style and Python sources on a fixed column: each line is
    right-stripped, its tabs are expanded to 4-column stops, and the code in
    front of the first comment separator outside double quotes is padded so
    that the separator starts at column `commentCol` (1-based). */
module Reformat {
  import opened Base

  const TabWidth := 4
  const CStyleFiles: seq<string> := [".c", ".cpp", ".h", ".hpp", ".ino"]
  const PythonStyleFiles: seq<string> := [".py"]

  /** What Python's `str.isspace` accepts, hence what `rstrip()` removes. */
  predicate IsSpace(c: char) {
    ('\t' <= c <= '\r') || ('\U{1C}' <= c <= ' ') || c == '\U{85}' || c == '\U{A0}'
    || c == '\U{1680}' || ('\U{2000}' <= c <= '\U{200A}') || c == '\U{2028}' || c == '\U{2029}'
    || c == '\U{202F}' || c == '\U{205F}' || c == '\U{3000}'
  }

  /** Python's `s.rstrip()`: the longest prefix of `s` that does not end in
      white space and after which only white space follows. */
  function RStrip(s: string): (r: string)
    ensures r <= s
    ensures r == [] || !IsSpace(r[|r| - 1])
    ensures forall k :: |r| <= k < |s| ==> IsSpace(s[k])
    decreases |s|
  {
    if s == [] || !IsSpace(s[|s| - 1]) then s else RStrip(s[..|s| - 1])
  }

  /** Python's `" " * n`: no character at all when `n` is not positive. */
  function Spaces(n: int): (r: string)
    ensures |r| == if n > 0 then n else 0
    ensures forall k :: 0 <= k < |r| ==> r[k] == ' '
  {
    seq(if n > 0 then n else 0, _ => ' ')
  }

  /** Column-based tab expansion, character by character from the left: a
      tab produces the spaces that bring the output to the next multiple of
      TabWidth, any other character is copied. */
  function ExpandTabs(s: string): (r: string)
    ensures '\t' !in r
    decreases |s|
  {
    if s == [] then []
    else
      var p := ExpandTabs(s[..|s| - 1]);
      if s[|s| - 1] == '\t' then p + Spaces(TabWidth - |p| % TabWidth) else p + [s[|s| - 1]]
  }

  /** `s[i:i+len(sep)] == sep` in Python: `sep` occurs in `s` at index `i`. */
  predicate At(s: string, i: nat, sep: string) {
    i + |sep| <= |s| && s[i..i + |sep|] == sep
  }

  /** `s.find(sep) != -1`. */
  predicate Occurs(s: string, sep: string) {
    exists i: nat :: i <= |s| && At(s, i, sep)
  }

  /** The scan's test at index `i`: `sep` starts there and, counting the
      double quote at `i` itself, an even number of double quotes precede it,
      so it is not inside a string. */
  predicate SepOutsideQuotes(line: string, i: nat, sep: string) {
    i < |line| && At(line, i, sep) && QuoteCount(line[..i + 1]) % 2 == 0
  }

  /** The number of double quotes in `s`. */
  function QuoteCount(s: string): nat {
    multiset(s)['"']
  }

  lemma QuoteCountStep(line: string, i: nat)
    requires i < |line|
    ensures QuoteCount(line[..i + 1]) == QuoteCount(line[..i]) + if line[i] == '"' then 1 else 0
  {
    assert line[..i + 1] == line[..i] + [line[i]];
  }

  /** The scan stops at the first index where the test holds. */
  lemma ScanFound(line: string, sep: string, i: nat)
    requires SepOutsideQuotes(line, i, sep)
    requires forall j :: 0 <= j < i ==> !SepOutsideQuotes(line, j, sep)
    ensures FirstSep(line, sep) == Some(i)
  {
  }

  lemma ScanExhausted(line: string, sep: string)
    requires forall j :: 0 <= j < |line| ==> !SepOutsideQuotes(line, j, sep)
    ensures FirstSep(line, sep).None?
  {
  }

  /** The first index at or after `from` where the separator is outside
      quotes. */
  function FirstSepFrom(line: string, sep: string, from: nat): (r: Option<nat>)
    requires from <= |line|
    ensures r.Some? ==> from <= r.value < |line| && SepOutsideQuotes(line, r.value, sep)
    ensures r.Some? ==> forall j :: from <= j < r.value ==> !SepOutsideQuotes(line, j, sep)
    ensures r.None? ==> forall j :: from <= j < |line| ==> !SepOutsideQuotes(line, j, sep)
    decreases |line| - from
  {
    if from == |line| then None
    else if SepOutsideQuotes(line, from, sep) then Some(from)
    else FirstSepFrom(line, sep, from + 1)
  }

  function FirstSep(line: string, sep: string): (r: Option<nat>)
    ensures r.Some? ==> r.value < |line| && SepOutsideQuotes(line, r.value, sep)
    ensures r.Some? ==> forall j :: 0 <= j < r.value ==> !SepOutsideQuotes(line, j, sep)
    ensures r.None? ==> forall j :: 0 <= j < |line| ==> !SepOutsideQuotes(line, j, sep)
  {
    FirstSepFrom(line, sep, 0)
  }

  /** The alignment test applied to the first separator outside quotes: the
      code before it, right-stripped, must be non-empty and shorter than
      `commentCol`, and the comment must not start with the doubled
      separator. */
  predicate AlignsAt(line: string, sep: string, commentCol: int, i: nat)
    requires i <= |line|
  {
    var start := RStrip(line[..i]);
    start != "" && |start| < commentCol && !At(line, i, sep + sep)
  }

  /** The comment alignment applied to a tab-free, right-stripped line. */
  function AlignComment(line: string, sep: string, commentCol: int): string {
    match FirstSep(line, sep)
    case None => line
    case Some(i) =>
      if AlignsAt(line, sep, commentCol, i) then
        var start := RStrip(line[..i]);
        start + Spaces(commentCol - (|start| + 1)) + line[i..]
      else line
  }

  /** What reformatFile writes for one input line. */
  function FormattedLine(raw: string, sep: string, commentCol: int): string {
    AlignComment(ExpandTabs(RStrip(raw)), sep, commentCol)
  }

  /** The separator reformatFile is called with for a file suffix; None is
      the "Can't work with ... type files" branch. */
  function SeparatorFor(suffix: string): Option<string> {
    if suffix in CStyleFiles then Some("//")
    else if suffix in PythonStyleFiles then Some("#")
    else None
  }

  // ---------------------------------------------------------------------
  // Tab expansion

  /** Tab-free text is copied unchanged by the expansion. */
  lemma {:induction false} ExpandTabFree(p: string, t: string)
    requires '\t' !in t
    ensures ExpandTabs(p + t) == ExpandTabs(p) + t
    decreases |t|
  {
    if t != [] {
      var t' := t[..|t| - 1];
      assert t == t' + [t[|t| - 1]];
      assert '\t' !in t' by {
        forall k | 0 <= k < |t'| ensures t'[k] != '\t' {
          assert t'[k] == t[k];
        }
      }
      var s := p + t;
      assert s[..|s| - 1] == p + t';
      assert s[|s| - 1] == t[|t| - 1] != '\t';
      ExpandTabFree(p, t');
      calc {
        ExpandTabs(s);
        ExpandTabs(s[..|s| - 1]) + [s[|s| - 1]];
        ExpandTabs(p + t') + [t[|t| - 1]];
        ExpandTabs(p) + t' + [t[|t| - 1]];
        ExpandTabs(p) + t;
      }
    } else {
      assert p + t == p;
    }
  }

  /** A tab advances the output to the next multiple of TabWidth, so the
      character after it lands on a tab stop; it is replaced by between 1 and
      TabWidth spaces. */
  lemma TabReachesTabStop(p: string)
    ensures ExpandTabs(p + ['\t']) == ExpandTabs(p) + Spaces(TabWidth - |ExpandTabs(p)| % TabWidth)
    ensures |ExpandTabs(p + ['\t'])| % TabWidth == 0
    ensures 1 <= |ExpandTabs(p + ['\t'])| - |ExpandTabs(p)| <= TabWidth
  {
    var s := p + ['\t'];
    assert s[..|p|] == p;
    var e := ExpandTabs(p);
    var n := TabWidth - |e| % TabWidth;
    assert ExpandTabs(s) == e + Spaces(n);
    assert |e| == TabWidth * (|e| / TabWidth) + |e| % TabWidth;
    assert |e| + n == TabWidth * (|e| / TabWidth + 1);
  }

  /** The characters that are neither blanks nor tabs. */
  function Visible(s: string): (r: string)
    ensures |r| <= |s|
  {
    if s == [] then []
    else if s[|s| - 1] == ' ' || s[|s| - 1] == '\t' then Visible(s[..|s| - 1])
    else Visible(s[..|s| - 1]) + [s[|s| - 1]]
  }

  lemma {:induction false} VisibleSpaces(p: string, n: int)
    ensures Visible(p + Spaces(n)) == Visible(p)
    decreases if n > 0 then n else 0
  {
    if n > 0 {
      assert (p + Spaces(n))[..|p + Spaces(n)| - 1] == p + Spaces(n - 1);
      VisibleSpaces(p, n - 1);
    } else {
      assert p + Spaces(n) == p;
    }
  }

  /** Tab expansion only inserts blanks: the other characters are kept, in
      order. */
  lemma {:induction false} ExpandTabsKeepsText(s: string)
    ensures Visible(ExpandTabs(s)) == Visible(s)
    decreases |s|
  {
    if s != [] {
      var s' := s[..|s| - 1];
      var c := s[|s| - 1];
      var p := ExpandTabs(s');
      ExpandTabsKeepsText(s');
      if c == '\t' {
        assert ExpandTabs(s) == p + Spaces(TabWidth - |p| % TabWidth);
        VisibleSpaces(p, TabWidth - |p| % TabWidth);
      } else {
        var e := p + [c];
        assert ExpandTabs(s) == e;
        assert e[..|e| - 1] == p && e[|e| - 1] == c;
      }
    }
  }

  /** One pass of the tab loop: with the first `done` characters of `orig`
      already expanded, the first tab of the current line is the first tab of
      the unexpanded rest, and replacing it extends the expanded prefix past
      that tab. */
  lemma ExpandStep(orig: string, done: nat, line: string, i: nat) returns (done': nat)
    requires done <= |orig|
    requires line == ExpandTabs(orig[..done]) + orig[done..]
    requires i < |line| && line[i] == '\t' && '\t' !in line[..i]
    ensures done < done' <= |orig|
    ensures line[..i] + Spaces(TabWidth - i % TabWidth) + line[i + 1..] == ExpandTabs(orig[..done']) + orig[done'..]
  {
    var E := ExpandTabs(orig[..done]);
    var R := orig[done..];
    assert |E| <= i;
    var j := i - |E|;
    var T := R[..j];
    assert R[j] == '\t';
    assert line[..i] == E + T;
    assert '\t' !in T by {
      forall k | 0 <= k < j ensures T[k] != '\t' {
        assert T[k] == line[..i][|E| + k];
      }
    }
    done' := done + j + 1;
    assert orig[..done'] == (orig[..done] + T) + ['\t'];
    ExpandTabFree(orig[..done], T);
    TabReachesTabStop(orig[..done] + T);
    assert ExpandTabs(orig[..done']) == E + T + Spaces(TabWidth - i % TabWidth);
    assert orig[done'..] == R[j + 1..] == line[i + 1..];
  }

  /** When the current line has no tab left, the rest of the original had
      none either, and the line is the full expansion. */
  lemma ExpandDone(orig: string, done: nat, line: string)
    requires done <= |orig|
    requires line == ExpandTabs(orig[..done]) + orig[done..]
    requires '\t' !in line
    ensures line == ExpandTabs(orig)
  {
    var E := ExpandTabs(orig[..done]);
    assert line[|E|..] == orig[done..];
    assert '\t' !in orig[done..];
    ExpandTabFree(orig[..done], orig[done..]);
    assert orig[..done] + orig[done..] == orig;
  }

  // ---------------------------------------------------------------------
  // Right stripping

  /** Appending white space does not change what rstrip returns. */
  lemma {:induction false} RStripIgnoresTrailingSpace(s: string, w: string)
    requires forall k :: 0 <= k < |w| ==> IsSpace(w[k])
    ensures RStrip(s + w) == RStrip(s)
    decreases |w|
  {
    if w != [] {
      assert (s + w)[..|s + w| - 1] == s + w[..|w| - 1];
      RStripIgnoresTrailingSpace(s, w[..|w| - 1]);
    } else {
      assert s + w == s;
    }
  }

  /** A line that differs from another only by trailing white space is
      formatted the same way, so such differences cannot make the file be
      rewritten. */
  lemma TrailingSpaceIsIrrelevant(raw: string, w: string, sep: string, commentCol: int)
    requires forall k :: 0 <= k < |w| ==> IsSpace(w[k])
    ensures FormattedLine(raw + w, sep, commentCol) == FormattedLine(raw, sep, commentCol)
    ensures RStrip(raw + w) == RStrip(raw)
  {
    RStripIgnoresTrailingSpace(raw, w);
  }

  // ---------------------------------------------------------------------
  // Properties of a formatted line

  lemma ExpandTabsLast(s: string)
    requires s != [] && !IsSpace(s[|s| - 1])
    ensures ExpandTabs(s) != [] && ExpandTabs(s)[|ExpandTabs(s)| - 1] == s[|s| - 1]
  {
  }

  /** No tab is left in a formatted line. */
  lemma FormattedLineHasNoTab(raw: string, sep: string, commentCol: int)
    ensures '\t' !in FormattedLine(raw, sep, commentCol)
  {
    var line := ExpandTabs(RStrip(raw));
    match FirstSep(line, sep)
    case None =>
    case Some(i) =>
      if AlignsAt(line, sep, commentCol, i) {
        var start := RStrip(line[..i]);
        assert start == line[..i][..|start|];
        assert '\t' !in start by {
          forall k | 0 <= k < |start| ensures start[k] != '\t' {
            assert start[k] == line[k];
          }
        }
        assert '\t' !in line[i..] by {
          forall k | 0 <= k < |line| - i ensures line[i..][k] != '\t' {
            assert line[i..][k] == line[i + k];
          }
        }
        var r := start + Spaces(commentCol - (|start| + 1)) + line[i..];
        assert forall k :: 0 <= k < |r| ==> r[k] != '\t';
      }
  }

  /** A formatted line never ends in white space. */
  lemma FormattedLineHasNoTrailingSpace(raw: string, sep: string, commentCol: int)
    ensures var r := FormattedLine(raw, sep, commentCol); r == [] || !IsSpace(r[|r| - 1])
  {
    var stripped := RStrip(raw);
    var line := ExpandTabs(stripped);
    if stripped != [] {
      ExpandTabsLast(stripped);
    }
    match FirstSep(line, sep)
    case None =>
    case Some(i) =>
      if AlignsAt(line, sep, commentCol, i) {
        var start := RStrip(line[..i]);
        var r := start + Spaces(commentCol - (|start| + 1)) + line[i..];
        assert r[|r| - 1] == line[|line| - 1];
      }
  }

  /** When the alignment applies, the code before the comment is the
      right-stripped code followed by blanks, the comment starts at index
      `commentCol - 1` (column `commentCol`) with the separator, and the
      comment text from the separator on is kept verbatim. */
  lemma AlignedCommentPosition(line: string, sep: string, commentCol: int, i: nat)
    requires FirstSep(line, sep) == Some(i)
    requires AlignsAt(line, sep, commentCol, i)
    ensures var r := AlignComment(line, sep, commentCol);
      var start := RStrip(line[..i]);
      |r| == commentCol - 1 + (|line| - i) &&
      r[..|start|] == start &&
      (forall k :: |start| <= k < commentCol - 1 ==> r[k] == ' ') &&
      r[commentCol - 1..] == line[i..] &&
      At(r, commentCol - 1, sep)
  {
    var r := AlignComment(line, sep, commentCol);
    var start := RStrip(line[..i]);
    var pad := Spaces(commentCol - (|start| + 1));
    assert r == start + pad + line[i..];
    assert |pad| == commentCol - 1 - |start|;
    assert r[commentCol - 1..] == line[i..];
    assert r[commentCol - 1..commentCol - 1 + |sep|] == line[i..i + |sep|];
  }

  /** The line is left as it is when no separator lies outside quotes, when
      the code before the first one is empty or reaches `commentCol`, or when
      the comment starts with the doubled separator. */
  lemma UnalignedLineIsUnchanged(line: string, sep: string, commentCol: int)
    requires FirstSep(line, sep).None?
      || RStrip(line[..FirstSep(line, sep).value]) == ""
      || |RStrip(line[..FirstSep(line, sep).value])| >= commentCol
      || At(line, FirstSep(line, sep).value, sep + sep)
    ensures AlignComment(line, sep, commentCol) == line
  {
  }

  /** A separator inside a double-quoted string is skipped: the comment of
      `"//" //` is the second `//`. */
  lemma QuotedSeparatorIsSkipped()
    ensures FirstSep("\"//\" //", "//") == Some(5)
  {
    var line := "\"//\" //";
    assert line[..2] == "\"/";
    assert multiset("\"/")['"'] == 1;
    assert line[..6] == "\"//\" /";
    assert multiset("\"//\" /")['"'] == 2;
    assert SepOutsideQuotes(line, 5, "//") by {
      assert line[5..7] == "//";
    }
    forall j | 0 <= j < 5 && j != 1 ensures !SepOutsideQuotes(line, j, "//") {
      assert line[j] != '/' || line[j + 1] != '/';
      assert line[j..j + 2][0] == line[j] && line[j..j + 2][1] == line[j + 1];
    }
    ScanFound(line, "//", 5);
  }

  /** The example line has neither trailing white space nor tabs. */
  lemma QuotedLineIsClean()
    ensures ExpandTabs(RStrip("\"//\" //")) == "\"//\" //"
  {
    var line := "\"//\" //";
    assert RStrip(line) == line;
    assert '\t' !in line;
    ExpandTabFree([], line);
    assert [] + line == line;
  }

  /** The text in front of the example's comment is `"//"`, short enough to align. */
  lemma QuotedLineAligns()
    ensures RStrip("\"//\" //"[..5]) == "\"//\""
    ensures AlignsAt("\"//\" //", "//", 8, 5)
  {
    var line := "\"//\" //";
    assert line[..5] == "\"//\" ";
    assert line[..5][..4] == "\"//\"";
    assert !At(line, 5, "////");
  }

  /** and the line is then padded so that this comment starts in column 8. */
  lemma QuotedSeparatorExample()
    ensures FormattedLine("\"//\" //", "//", 8) == "\"//\"" + "   " + "//"
  {
    var line := "\"//\" //";
    QuotedSeparatorIsSkipped();
    QuotedLineIsClean();
    QuotedLineAligns();
    assert line[5..] == "//";
    assert Spaces(3) == "   ";
  }

  /** Without any occurrence of the separator the scan finds nothing; the
      `find` guard in front of the scan is therefore only a shortcut. */
  lemma NoOccurrenceNoSeparator(line: string, sep: string)
    requires !Occurs(line, sep)
    ensures FirstSep(line, sep).None?
  {
  }

  /** The suffix dispatch of the main loop: the C-style suffixes get "//",
      ".py" gets "#", every other suffix is refused. */
  lemma SeparatorDispatch(suffix: string)
    ensures SeparatorFor(suffix) == Some("//") <==> suffix in {".c", ".cpp", ".h", ".hpp", ".ino"}
    ensures SeparatorFor(suffix) == Some("#") <==> suffix == ".py"
    ensures SeparatorFor(suffix).None? <==> suffix !in {".c", ".cpp", ".h", ".hpp", ".ino", ".py"}
  {
  }

  // ---------------------------------------------------------------------
  // The imperative transform

  /** The tab loop of reformatFile: while the line holds a tab, the first
      one is replaced by the spaces that reach the next tab stop. */
  method ExpandTabsLoop(originalLine: string) returns (line: string)
    ensures line == ExpandTabs(originalLine)
  {
    line := originalLine;
    ghost var done := 0;
    while true
      invariant done <= |originalLine|
      invariant line == ExpandTabs(originalLine[..done]) + originalLine[done..]
      decreases |originalLine| - done
    {
      var found := IndexOf(line, '\t');
      if found.None? {
        break;
      }
      var i := found.value;
      done := ExpandStep(originalLine, done, line, i);
      line := line[..i] + Spaces(TabWidth - i % TabWidth) + line[i + 1..];
    }
    ExpandDone(originalLine, done, line);
  }

  /** The `except` branch of reformatFile: when the separator occurs, scan
      for its first occurrence outside double quotes, toggling the quote
      state on each `"`, and pad the code in front of it. */
  method AlignCommentLoop(expanded: string, separator: string, commentCol: int) returns (line: string)
    ensures line == AlignComment(expanded, separator, commentCol)
  {
    line := expanded;
    if Occurs(line, separator) {
      var inQuote := false;
      var i := 0;
      ghost var stopped := false;
      while i < |line|
        invariant line == expanded
        invariant 0 <= i <= |line|
        invariant inQuote <==> QuoteCount(line[..i]) % 2 == 1
        invariant forall j :: 0 <= j < i ==> !SepOutsideQuotes(line, j, separator)
      {
        QuoteCountStep(line, i);
        if line[i] == '"' {
          inQuote := !inQuote;
        }
        if !inQuote && At(line, i, separator) {
          ScanFound(line, separator, i);
          var startLine := RStrip(line[..i]);
          if startLine != "" && |startLine| < commentCol && !At(line, i, separator + separator) {
            line := startLine + Spaces(commentCol - (|startLine| + 1)) + line[i..];
          }
          stopped := true;
          break;
        }
        i := i + 1;
      }
      if !stopped {
        ScanExhausted(line, separator);
      }
    } else {
      NoOccurrenceNoSeparator(line, separator);
    }
  }

  /** One iteration of reformatFile's line loop: rstrip, the tab loop, the
      comment alignment; `changed` is whether the result differs from the
      right-stripped line. */
  method ReformatLine(raw: string, separator: string, commentCol: int) returns (line: string, changed: bool)
    ensures line == FormattedLine(raw, separator, commentCol)
    ensures changed <==> LineChanged(raw, separator, commentCol)
  {
    line := RStrip(raw);
    var originalLine := line;
    line := ExpandTabsLoop(line);
    line := AlignCommentLoop(line, separator, commentCol);
    changed := originalLine != line;
  }

  /** Whether formatting changes a line beyond right-stripping it. */
  predicate LineChanged(raw: string, sep: string, commentCol: int) {
    FormattedLine(raw, sep, commentCol) != RStrip(raw)
  }

  /** reformatFile's loop over the lines of one file: the new content, one
      formatted line per input line, and whether anything changed, which
      decides whether the file is rewritten. */
  method ReformatLines(lines: seq<string>, separator: string, commentCol: int)
    returns (newContent: seq<string>, somethingChanged: bool)
    ensures |newContent| == |lines|
    ensures forall k :: 0 <= k < |lines| ==> newContent[k] == FormattedLine(lines[k], separator, commentCol)
    ensures somethingChanged <==> exists k :: 0 <= k < |lines| && LineChanged(lines[k], separator, commentCol)
  {
    newContent := [];
    somethingChanged := false;
    for n := 0 to |lines|
      invariant FormattedPrefix(lines, separator, commentCol, n, newContent, somethingChanged)
    {
      var line, changed := ReformatLine(lines[n], separator, commentCol);
      FormattedPrefixStep(lines, separator, commentCol, n, newContent, somethingChanged, line, changed);
      newContent := newContent + [line];
      somethingChanged := somethingChanged || changed;
    }
  }

  /** The state of reformatFile's line loop after its first `n` lines. */
  predicate FormattedPrefix(lines: seq<string>, sep: string, commentCol: int, n: nat,
                            content: seq<string>, changed: bool)
  {
    && n <= |lines|
    && |content| == n
    && (forall k :: 0 <= k < n ==> content[k] == FormattedLine(lines[k], sep, commentCol))
    && (changed <==> exists k :: 0 <= k < n && LineChanged(lines[k], sep, commentCol))
  }

  lemma FormattedPrefixStep(lines: seq<string>, sep: string, commentCol: int, n: nat,
                            content: seq<string>, changed: bool, line: string, lineChanged: bool)
    requires n < |lines| && FormattedPrefix(lines, sep, commentCol, n, content, changed)
    requires line == FormattedLine(lines[n], sep, commentCol)
    requires lineChanged <==> LineChanged(lines[n], sep, commentCol)
    ensures FormattedPrefix(lines, sep, commentCol, n + 1, content + [line], changed || lineChanged)
  {
  }

  /** The default list of input patterns when no --input option is given:
      `*` followed by each C-style suffix, then by each Python suffix. Every
      pattern's suffix is one the dispatch accepts. */
  method DefaultInputFiles() returns (inputFiles: seq<string>)
    ensures inputFiles == ["*.c", "*.cpp", "*.h", "*.hpp", "*.ino", "*.py"]
    ensures forall k :: 0 <= k < |inputFiles| ==>
      inputFiles[k][0] == '*' && SeparatorFor(inputFiles[k][1..]).Some?
  {
    inputFiles := [];
    for n := 0 to |CStyleFiles|
      invariant |inputFiles| == n
      invariant forall k :: 0 <= k < n ==> inputFiles[k] == "*" + CStyleFiles[k]
    {
      inputFiles := inputFiles + ["*" + CStyleFiles[n]];
    }
    for n := 0 to |PythonStyleFiles|
      invariant |inputFiles| == |CStyleFiles| + n
      invariant forall k :: 0 <= k < |CStyleFiles| ==> inputFiles[k] == "*" + CStyleFiles[k]
      invariant forall k :: 0 <= k < n ==> inputFiles[|CStyleFiles| + k] == "*" + PythonStyleFiles[k]
    {
      inputFiles := inputFiles + ["*" + PythonStyleFiles[n]];
    }
    assert inputFiles[0] == "*" + CStyleFiles[0] == "*.c";
    assert inputFiles[1] == "*" + CStyleFiles[1] == "*.cpp";
    assert inputFiles[2] == "*" + CStyleFiles[2] == "*.h";
    assert inputFiles[3] == "*" + CStyleFiles[3] == "*.hpp";
    assert inputFiles[4] == "*" + CStyleFiles[4] == "*.ino";
    assert inputFiles[5] == "*" + PythonStyleFiles[0] == "*.py";
    forall k | 0 <= k < |inputFiles|
      ensures inputFiles[k][0] == '*' && SeparatorFor(inputFiles[k][1..]).Some?
    {
      assert inputFiles[k][1..] in CStyleFiles + PythonStyleFiles;
    }
  }
}
